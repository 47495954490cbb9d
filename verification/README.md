# pk-backend core in Dafny

A model of the decision logic of pk-backend, an Express/Mongoose shop for phone
accessories, with proofs about it. The model covers order placement, the cart
upsert and removal, the admin reports and status update, the authentication
middleware, the product catalogue handlers, and the Order and Product schema
constraints.

Every collection in the store is a sequence in the store's natural order.
A lookup by id or owner finds the first match. Each handler is a pure
function from the store and the request to a `Result`: `Ok` carries the new
store and the response, and `Err` carries the HTTP status and message.
Prices and totals are integer currency units.

Modules, one file each:

- `Common` (common.dfy): `Option`, `Result`, `HttpError`, the first-match lookup, the filter, `SumOf` and the sum lemmas.
- `Sorting` (sorting.dfy): the `sort` stage, as a stable insertion sort by an integer rank.
- `Grouping` (grouping.dfy): the `$group` stage with two `$sum` accumulators.
- `Paging` (paging.dfy): `skip`/`limit` and the page count of the admin lists.
- `Catalog` (catalog.dfy): the Product schema and the product controller.
- `Orders` (orders.dfy): the Order schema and the status write.
- `Carts` (carts.dfy): the cart controller.
- `Auth` (auth.dfy): the `auth(requiredRole)` middleware.
- `Placement` (placement.dfy): the order controller.
- `Admin` (admin.dfy): the admin controller.

Some inputs are parameters rather than computed:

- Token verification is a function from a token to a payload or an error.
- The current time, the six-months-ago cutoff, and each order's creation
  instant with its calendar year and month are all given.
- New document ids and uploaded file names are given.
- Mongoose's `strictPopulate` setting is a parameter of the customer details as written.

## Model

| member | source | states |
|---|---|---|
| Catalog.CreateProduct | src/controllers/product.controller.js:4-42 | Accepted exactly when the name is non-empty, the price is at least 0, the category is case, earphone, charger or glass, and any stock is at least 0; otherwise 400. The stored product satisfies the schema, takes the body's fields, has stock 100 when none is given, and has one image "/uploads/" + name per uploaded file, in upload order |
| Catalog.UploadedImages | src/controllers/product.controller.js:27-30 | One image path per uploaded file, "/uploads/" followed by the file name, in upload order |
| Catalog.SelectImages | src/controllers/product.controller.js:49-56 | Uploaded files win and replace the images; with no files a non-empty imageUrl becomes the one-element list; with neither the images are kept |
| Catalog.FindProductIndex | src/controllers/product.controller.js:58-59 | Finds the first product with the id, or reports that no product has it |
| Catalog.UpdateProductAsWritten | src/controllers/product.controller.js:44-64 | 404 exactly when no product has the id. Otherwise that product, and only it, gets the body's fields and the selected images, with no validation |
| Catalog.UpdateProduct | src/controllers/product.controller.js:44-64 | Corrected update: a body failing the create validators is 400 before the lookup. Otherwise it agrees with the handler as written. It keeps a valid catalogue valid and leaves other products unchanged |
| Catalog.ApplyFields | src/controllers/product.controller.js:47-56 | The updated product takes each field the body carries and keeps the others; the images are chosen by SelectImages |
| Catalog.FieldsValid | src/controllers/product.controller.js:4-10 | The create validators: a non-empty name, a price at least 0, a known category and any stock at least 0 |
| Catalog.QueryValid | src/controllers/product.controller.js:12-19 | The list validators: a known category, prices at least 0, page at least 1 and limit in 1..100, each when given |
| Catalog.ValidProduct | src/models/Product.js:5-9 | The schema's constraints: a name, a price at least 0 and a category among case, earphone, charger and glass |
| Catalog.UpdateAsWrittenStoresNegativePrice | src/controllers/product.controller.js:44-58 | As written, updating a valid product with price -5 stores it and makes the catalogue invalid; the corrected update answers 400 |
| Catalog.FilterProducts | src/controllers/product.controller.js:94-99 | A product is listed exactly when it has the requested category, a price at least minPrice and a price at most maxPrice, each test applying only when its parameter is given. Each listed product appears as often as it is stored, so the count of matches is fixed |
| Catalog.NewestPage | src/controllers/product.controller.js:102-105 | The page is the run of the newest-first matches that starts after (page - 1) x limit of them: item i is match (page - 1) x limit + i, and the page is as long as `limit` or the matches that remain allow. It is therefore ordered newest first |
| Catalog.ListProducts | src/controllers/product.controller.js:12-19 | Accepted exactly when the list validators pass (limit in 1..100, page at least 1, prices at least 0, known category). Page and limit default to 1 and 12. The total counts every match, and the items are matches from the catalogue, newest first, at most `limit` of them |
| Catalog.ListedPage | src/controllers/product.controller.js:91-105 | The listed page skips (page - 1) x limit of the newest-first matches and holds the next ones, as many as `limit` or the remaining matches allow |
| Orders.NewOrder | src/models/Order.js:14-23 | A new order has status "pending" (inside the enumeration), payment method "COD" when none is given, and the given items, total and optional owner |
| Orders.ValidLineItem | src/models/Order.js:3-10 | A line item has a name and a quantity of at least 1 |
| Orders.ValidOrder | src/models/Order.js:14-23 | An order's items are valid, the customer name, phone and address are present, payment is COD and the status is one of the five values; the owner is optional. It also asks for a creation month in 1..12, a model condition that the schema does not state |
| Orders.ItemsTotalNonNegative | src/controllers/order.controller.js:38 | With prices at least 0 and quantities at least 1, the sum of price x quantity is at least 0 |
| Orders.FindOrder | src/controllers/order.controller.js:89-94 | Finds the first order with the id, or reports that none has it |
| Orders.WriteStatus | src/controllers/order.controller.js:86-95 | 404 exactly when no order has the id. Otherwise only that order's status changes, and every other order is unchanged |
| Placement.BatchLookup | src/controllers/order.controller.js:22-23 | Keeps a catalogue product exactly when its id is among the requested ids |
| Placement.BatchLookupAgrees | src/controllers/order.controller.js:23-26 | Looking a requested id up in the batch gives the product a lookup in the whole catalogue gives |
| Placement.FindProduct | src/controllers/order.controller.js:26 | The match has the id, and there is none exactly when no product has the id |
| Placement.Snapshots | src/controllers/order.controller.js:25-36 | Succeeds exactly when every requested product is found, and otherwise fails with 400 "Invalid product in cart". There is one line item per request, in request order, so repeated ids repeat. Each line item copies the product's id, name, price and first image ("" when it has none) with the requested quantity |
| Placement.Checkout | src/controllers/order.controller.js:6-48 | A request failing the validators is 400. Otherwise the order exists exactly when every product is found. Its line items are the snapshots, its total is the sum of price x quantity over them, its status is pending, its payment is COD, and its owner is the caller |
| Placement.RequestValid | src/controllers/order.controller.js:6-14 | The create validators: customer name, phone and address non-empty, payment method COD, at least one item, and every quantity at least 1 |
| Placement.CheckoutValid | src/controllers/order.controller.js:25-48 | Over a catalogue that satisfies the Product schema, every order placed satisfies the Order schema and has a total of at least 0 |
| Placement.PlaceOrderAsWritten | src/controllers/order.controller.js:40-51 | Fails exactly when the checkout fails, with the checkout's error. Otherwise the checkout's order is appended and the catalogue is kept. For a signed-in caller the first stored cart is emptied, whoever owns it |
| Placement.PlacementsDifferOnlyInCarts | src/controllers/order.controller.js:40-51 | The shipped and the corrected placement fail alike and store the same order over the same catalogue; for a guest they are identical |
| Placement.PlaceOrder | src/controllers/order.controller.js:40-51 | Corrected placement. The order is appended and the catalogue is untouched. A signed-in caller's cart is emptied and every other user's cart is unchanged. A guest order leaves all carts alone. A failed request fails with the checkout's error |
| Placement.PlaceOrderAsWrittenClearsWrongCart | src/controllers/order.controller.js:49-51 | With carts for u1 and u2, an order by u2 empties u1's cart and keeps u2's as written; the corrected placement does the reverse |
| Placement.PlacementExample | src/controllers/order.controller.js:25-38 | Two units of a product priced 100 give a pending order totalling 200 whose line item carries the product's first image |
| Placement.UpdateStatusAsWritten | src/controllers/order.controller.js:86-95 | 404 "Not found" exactly when the order is absent. Otherwise the found order, with only its status replaced by the given one (unchecked), is stored at its position and returned; the store keeps its length and every other order |
| Placement.UpdateStatusAsWrittenBreaksEnum | src/controllers/order.controller.js:86-95 | A valid order updated with status "bogus" stores it and no longer satisfies the schema |
| Carts.FindCart | src/controllers/cart.controller.js:23 | Finds the first cart of the user, or reports that the user has none |
| Carts.MyCart | src/controllers/cart.controller.js:9-16 | A user without a stored cart sees an empty cart of their own; otherwise they see their stored cart |
| Carts.FindItem | src/controllers/cart.controller.js:27 | Finds the first entry for the product, or reports that none exists |
| Carts.Upsert | src/controllers/cart.controller.js:27-32 | If the product is present, the length is kept and the product's quantity becomes the new one. If it is absent, one entry is appended at the end. Other entries are unchanged, and a cart without duplicate products stays without them |
| Carts.UpsertIdempotent | src/controllers/cart.controller.js:27-32 | Repeating an upsert changes nothing |
| Carts.Without | src/controllers/cart.controller.js:46 | Keeps exactly the entries for other products, and leaves a cart without the product unchanged |
| Carts.WithoutAppend | src/controllers/cart.controller.js:46 | Removal distributes over concatenation, so the remaining entries keep their relative order |
| Carts.RemoveIdempotent | src/controllers/cart.controller.js:46 | Removing twice is removing once |
| Carts.RemoveAfterUpsert | src/controllers/cart.controller.js:27-46 | Removing a product undoes any upsert of it |
| Carts.AddOrUpdateItem | src/controllers/cart.controller.js:4-39 | 400 exactly when the product id is empty or the quantity is below 1. Otherwise the caller's cart, created empty when missing, is upserted, and every other user's cart is unchanged |
| Carts.UpsertValid | src/controllers/cart.controller.js:4-7 | The upsert validators: a non-empty product id and a quantity of at least 1 |
| Carts.RemoveItem | src/controllers/cart.controller.js:41-53 | With no cart, the answer is an empty cart and nothing is stored. Otherwise every entry for the product is dropped and other users' carts are unchanged. An absent product leaves the store as it was |
| Carts.ClearCartOf | src/controllers/order.controller.js:49-51 | The caller's cart ends up empty and every other user's cart is unchanged |
| Carts.ClearFirstCart | src/controllers/order.controller.js:50 | Empties the first stored cart, keeps the rest, and stores nothing when there are no carts |
| Auth.BearerToken | src/middleware/auth.js:6-8 | There is a token exactly when the header starts with "Bearer " and has more after it. The token is the header without its first 7 characters |
| Auth.TokenRoundTrip | src/middleware/auth.js:7 | Prefixing "Bearer " to a non-empty token and extracting gives the token back |
| Auth.AuthenticateAsWritten | src/middleware/auth.js:3-18 | No token gives 401. A token the verifier rejects gives 500 with the verifier's message. A payload is accepted only when verified and matching any required role |
| Auth.Authenticate | src/middleware/auth.js:3-18 | Corrected middleware: 403 exactly when the token verifies but the required role differs, and acceptance exactly when it verifies and the role matches or none is required; every other request gets 401. With no required role, any verified payload becomes the request's user |
| Auth.AuthenticateAgreesWhenVerified | src/middleware/auth.js:9-14 | The two agree on every request except one whose token fails verification |
| Auth.InvalidTokenGives500 | src/middleware/auth.js:9 | "Bearer abc" with a rejecting verifier is 500 as written and 401 when corrected |
| Admin.UpdateOrderStatus | src/controllers/admin.controller.js:163-187 | A missing status or one outside the five is 400, and nothing is written. Otherwise an absent order is 404 "Order not found". Only the order's status changes, other orders are unchanged, and a valid store stays valid |
| Admin.AnyStatusFollowsAny | src/controllers/admin.controller.js:168-183 | Any of the five statuses can be written over any current status |
| Admin.StatusHandlersAgree | src/controllers/admin.controller.js:173-177 | On a status from the enumeration and an existing order, the admin handler and the order controller's handler store the same result |
| Admin.RecentOrders | src/controllers/admin.controller.js:13 | min(number of orders, 10) orders taken from the store without repetition, newest first |
| Admin.RecentRevenue | src/controllers/admin.controller.js:16 | The sum of the recent orders' totals; RecentRevenueOfFewOrders and RecentRevenueBounds relate it to the lifetime revenue |
| Admin.OmittedOrdersAreOlder | src/controllers/admin.controller.js:13 | An order left out of the recent ten is no newer than any that is listed |
| Admin.RecentRevenueOfFewOrders | src/controllers/admin.controller.js:13-16 | With ten orders or fewer, the dashboard's revenue is the sum over all of them |
| Admin.RecentRevenueBounds | src/controllers/admin.controller.js:16 | With non-negative totals, the revenue lies between 0 and the lifetime revenue |
| Admin.Qualifying | src/controllers/admin.controller.js:23-28 | An order counts exactly when it is completed or shipped and created no earlier than the cutoff; each counting order is passed on as often as it is stored |
| Admin.MonthlyRevenue | src/controllers/admin.controller.js:22-42 | Rows are in strictly ascending (year, month) order. Each row's revenue and count equal the sum and number of that month's qualifying orders. A month has a row exactly when it has a qualifying order |
| Admin.MonthsAscending | src/controllers/admin.controller.js:39-41 | Sorting by year x 12 + month over distinct months in 1..12 gives strict calendar order |
| Admin.MonthTotals | src/controllers/admin.controller.js:29-37 | Each grouped month's `$sum` fields equal the reference revenue and count |
| Admin.SoldItems | src/controllers/admin.controller.js:46 | The `$unwind` of the items: every line item of every order appears, and nothing else does |
| Admin.SoldItemsOfOne | src/controllers/admin.controller.js:46 | One order unwinds to its own line items, each once, in order |
| Admin.SoldItemsAppend | src/controllers/admin.controller.js:46 | Unwinding two runs of orders gives the first run's line items followed by the second's, so each line item appears once per order line that holds it |
| Admin.Catalogued | src/controllers/admin.controller.js:55-62 | Keeps exactly the groups whose product is in the catalogue |
| Admin.TopProducts | src/controllers/admin.controller.js:45-72 | At most five rows, each a catalogue product that sold, listed once, with units and revenue equal to its sales summed over all orders, by descending units. A sold catalogue product left out means five rows were listed and it sold no more units than the fifth |
| Admin.TopComplete | src/controllers/admin.controller.js:70-71 | Completeness of the top five: an omitted sold catalogue product sold no more units than the last listed |
| Admin.DashboardStats | src/controllers/admin.controller.js:7-84 | The counts are the numbers of products, orders and customer-role users. The recent orders, the monthly rows and the top products are exactly those of RecentOrders, MonthlyRevenue and TopProducts. The revenue is the sum over the at most ten recent orders (the lifetime sum when there are ten or fewer) |
| Admin.AdminProducts | src/controllers/admin.controller.js:91-122 | A negative skip, (page - 1) x limit, is an error. Otherwise the page holds catalogue products of the requested category (any category when none or "" is given), newest first. It has at most `limit` of them (default 10), the total count of matches, and ceil(total / limit) pages |
| Admin.AdminProductsPage | src/controllers/admin.controller.js:103-109 | The page skips (page - 1) x limit of the newest-first matching products and holds the next ones, as many as `limit` or the remaining matches allow |
| Admin.WithStatus | src/controllers/admin.controller.js:129-132 | Keeps exactly the orders with the given status, each as often as it is stored; all orders, unchanged, when none or "" is given |
| Admin.AdminOrders | src/controllers/admin.controller.js:125-160 | The same pagination over the stored orders with the given status (any when none or "" is given), newest first |
| Admin.AdminOrdersPage | src/controllers/admin.controller.js:140-147 | The page skips (page - 1) x limit of the newest-first matching orders and holds the next ones, as many as `limit` or the remaining orders allow |
| Admin.OrdersOf | src/controllers/admin.controller.js:215 | Keeps exactly the user's orders |
| Admin.Summarise | src/controllers/admin.controller.js:214-225 | A customer's row: every order of theirs counts, only completed and shipped ones add to the spend, which is 0 when there are none; NewOrderInSummary, SpendBounds and NoRevenueNoSpend state how it moves, where it lies and when it is 0 |
| Admin.Spending | src/controllers/admin.controller.js:217 | Keeps exactly the completed and shipped orders |
| Admin.NewOrderInSummary | src/controllers/admin.controller.js:213-225 | An order of any status raises its owner's order count by one. Only a completed or shipped one adds its total to the spend. Another user's order changes nothing |
| Admin.SpendBounds | src/controllers/admin.controller.js:216-224 | With non-negative totals, a customer's spend lies between 0 and the total of all their orders |
| Admin.NoRevenueNoSpend | src/controllers/admin.controller.js:216-224 | A customer none of whose orders is completed or shipped has a spend of 0: the `$match` finds nothing and the total defaults to 0 |
| Admin.CustomersIn | src/controllers/admin.controller.js:194 | Keeps exactly the users with the customer role, each as often as it is stored |
| Admin.CustomerList | src/controllers/admin.controller.js:190-240 | A negative skip is an error. Otherwise each listed item is a customer-role user with their order count and spend, newest account first, and the page reports the total number of customers and ceil(total / limit) pages |
| Admin.CustomerListPage | src/controllers/admin.controller.js:203-209 | The listed customers are the newest-first customers from position (page - 1) x limit on, as many as `limit` or the remaining customers allow |
| Admin.FindUser | src/controllers/admin.controller.js:247-250 | Finds a user with the id, or reports that none has it |
| Admin.TextMatchesNothing | src/controllers/admin.controller.js:256-257 | An aggregation matching the id as a string finds no order |
| Admin.OwnedBy | src/controllers/admin.controller.js:256-257 | The `$match` on the owner: the orders whose stored ObjectId owner equals the matched value, in store order |
| Admin.MatchStats | src/controllers/admin.controller.js:256-271 | The order count and spend of the matched orders, or the all-zero default when none matched |
| Admin.ObjectIdMatchesOwner | src/controllers/admin.controller.js:252-257 | Matching the id as an ObjectId finds exactly the customer's orders |
| Admin.CustomerDetailsAsWritten | src/controllers/admin.controller.js:243-276 | 404 "Customer not found" exactly when no user has the id. With `strictPopulate` on, a customer with any order gets 500, because the populated path `items.productId` is not in the order schema. Otherwise the orders are the customer's and the statistics are always all zero |
| Admin.CustomerDetails | src/controllers/admin.controller.js:243-276 | Corrected details view. The listed orders are exactly the customer's, newest first. The statistics count them and sum their totals over every status, and are zero when there are none |
| Admin.DetailsAgreeWithList | src/controllers/admin.controller.js:213-227 | The details view and the customer list agree on the order count. The list's spend, which counts completed and shipped orders only, is at most the detail total |
| Admin.DetailsStatsDiscrepancy | src/controllers/admin.controller.js:252-271 | A customer with one completed order of 100 gets 500 as written with `strictPopulate` on and {0, 0} with it off, and {1, 100} when corrected |
| Common.FirstIndex | src/controllers/cart.controller.js:27 | The lookup shared by `findOne`, `findById` and `findIndex`. The position found holds the key and no earlier position does. There is none exactly when no element has the key |
| Grouping.Group | src/controllers/admin.controller.js:29-38 | One row per distinct key among the inputs, and no other. Each row's two fields are the sums over the input rows with that key |
| Grouping.TallyTotals | src/controllers/admin.controller.js:48-51 | A group's `$sum` equals the sum over the elements carrying its key |
| Sorting.SortBy | src/controllers/admin.controller.js:70 | The output is ordered by rank and is a permutation of the input |
| Paging.CeilDivBounds | src/controllers/admin.controller.js:115 | ceil(total / limit) pages hold every document, and one page fewer does not |
| Paging.CeilDiv | src/controllers/admin.controller.js:115 | `Math.ceil(total / limit)` in integers; CeilDivBounds states it is the least page count that holds every document |
| Paging.Slice | src/controllers/admin.controller.js:106-109 | `skip` then `limit` (0 meaning none) returns the documents from position skip on, exactly as many as `limit` or the remaining documents allow |
| Paging.AdminPage | src/controllers/admin.controller.js:106-118 | A negative skip is a store error (500). The page holds the documents from (page - 1) x limit on, exactly as many as `limit` or the remaining documents allow, with the total and ceil(total / limit) pages. A limit of 0 returns every document and no page count |
| Paging.EveryDocumentOnItsPage | src/controllers/admin.controller.js:106-115 | Document k is item k mod limit of page k / limit + 1, and that page is within the reported page count |
| Paging.OrderedPage | src/controllers/admin.controller.js:103-118 | The page is the run of the sorted listing from (page - 1) x limit on, as long as `limit` or the remaining documents allow; it is sorted and holds only documents of the listing |
| Paging.OrderedPageSucceeds | src/controllers/admin.controller.js:103-118 | With a skip of at least 0 the ordered listing is always paginated, and the page is exactly the slice of the sorted listing from (page - 1) x limit on |

## Left out

- Mongoose and MongoDB themselves: connections, the query language, indexes, the data `populate` joins in, and store failures other than the negative skip and the failed populate of the customer details. Store calls become functions over sequences.
- The `q` text search of the public product list and its relevance ordering: both depend on the store's text index.
- The `search` parameters of the admin lists: they are case-insensitive regular expressions.
- The `sortBy` and `sortOrder` parameters of the admin lists: only their default, newest first, is modelled.
- `avgOrderValue` of the customer details: a floating-point division.
- Prices as floating-point numbers: money is integer units.
- JWT signing and verification, bcrypt, and the register and login handlers: verification is a parameter of the middleware.
- Multer: upload storage, file naming and the file-type filter. File names are parameters.
- Express wiring: routes, CORS, helmet, the global error handler and the seed script.
- Concurrency: `Promise.all`, and the gap between storing an order and clearing the cart. These are modelled as sequential steps.
- Query strings that are not numbers, and a negative admin `limit`: `page` is an integer and `limit` a natural number.
- Ids that are not valid ObjectIds: the store's cast fails with 500 (a CastError) before any lookup. This covers product ids in an order request or a product update, order ids of both status handlers, and user ids of the customer details. The model treats every id as well formed and answers 400 or 404 there.
- Catalog.CreateProduct: body fields outside the schema are not modelled. An `images` field in the body is overridden, because the handler spreads the body first and then sets `images` to the uploaded file list, which is empty when nothing is uploaded.
- Catalog.UpdateProductAsWritten: an `images` field in the update body itself is not modelled; only uploaded files and `imageUrl` set the images.
- Catalog.ListProducts: ignores the text query, as said above.
- Product removal and lookup by id, and order-by-id: each is a single store call with a 404 when nothing is found. The order list and my-orders are a single sorted find and never answer 404.
- The Cart schema file is not part of this model. A cart is taken to be a user key `user` and (product, quantity) entries, as the cart controller uses them.
- Sorting.SortBy: ties among equal creation times are broken by store order, since the sort is stable. MongoDB promises no order among equal sort keys, so when creation times tie, the pages that OrderedPage, NewestPage and the page lemmas state are one admissible answer among several.
- Placement.Checkout: does not model the schema validation that `Order.create` runs. A line item whose product name is empty fails src/models/Order.js:6, and the store answers 500 where Checkout answers Ok. The unvalidated product update (Findings row 2) can store such a name.
- Placement.PlaceOrderAsWritten: the `caller` parameter models the controller on its own. src/routes/order.routes.js:5 mounts it without the `auth()` middleware, so as shipped no caller is ever set. Every order is then a guest order, and the cart step never runs.
- Admin.CustomerDetails: the corrected view does not populate the order items' products, whose name, price and images are not modelled.
- Admin.DashboardStats: the populated user name and email of the recent orders are not modelled, and the document counts are sequence lengths.

## Findings

| source | as written | input that shows it | evidently intended | confidence | as-written member | corrected member |
|---|---|---|---|---|---|---|
| src/middleware/auth.js:9 | The verifier's error is passed on as it is. It carries no status, so the global error handler answers 500 with the verifier's message | header "Bearer abc" with a token that fails verification | 401 Unauthorized, as for a missing token | high, not executed | Auth.AuthenticateAsWritten | Auth.Authenticate |
| src/controllers/product.controller.js:44-58 | The route runs the create validators, but the handler never reads their result. `findByIdAndUpdate` runs no schema validators either, so any price or category is stored | update of a valid product with price -5 | 400 for a body the validators reject | high, not executed | Catalog.UpdateProductAsWritten | Catalog.UpdateProduct |
| src/controllers/order.controller.js:49-51 | The cart update filters on `userId`, but carts are keyed by `user`. With strict queries (src/utils/db.js:9) the unknown condition is dropped, and the first stored cart is emptied. The branch runs only for a signed-in caller, and src/routes/order.routes.js:5 sets none, so as shipped it is not reached | carts of u1 and u2; u2 places an order through a route that authenticates the caller | empty the caller's cart only | low, not executed; the Cart schema is not part of this model, and the shipped route never sets a caller | Placement.PlaceOrderAsWritten | Placement.PlaceOrder |
| src/controllers/admin.controller.js:252-266 | The order list populates `items.productId`, but order items keep their product under `product`. With Mongoose's `strictPopulate` on (the default from version 6), any customer with an order gets 500. With it off, the statistics pipeline matches `userId` against the uncast id string, no order matches, and the statistics are always zero | customer u1 with one completed order totalling 100: 500 with `strictPopulate` on, {0 orders, 0 spent} with it off | 200 with {1 order, 100 spent}, the same orders as the list beside them | medium, not executed; the Mongoose version is not part of this model | Admin.CustomerDetailsAsWritten | Admin.CustomerDetails |
| src/controllers/order.controller.js:86-95 | The status is written without checking it. `findByIdAndUpdate` runs no enum validator, so any string is stored | status "bogus" on an existing order | 400 "Invalid status", as the admin handler does | medium, not executed | Placement.UpdateStatusAsWritten | Admin.UpdateOrderStatus |

The exhibits for each row are these lemmas:

- `Auth.InvalidTokenGives500`
- `Catalog.UpdateAsWrittenStoresNegativePrice`
- `Placement.PlaceOrderAsWrittenClearsWrongCart`
- `Admin.DetailsStatsDiscrepancy`
- `Placement.UpdateStatusAsWrittenBreaksEnum`
