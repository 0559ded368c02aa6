# Shop backend: checkout, category tree and request validators

A model of the core of an Express/Mongoose e-commerce backend in Dafny. It covers three parts.

- **Checkout** (`orderController.createOrder`). The model turns a list of cart-line ids into an order
  inside a store transaction. The store is the class `OrderStore.Store`. It holds four collections:
  cart lines, combinations (product variants with price and stock), addresses per user, and orders.
  A client session is the class `OrderStore.Session`. It stages exactly the writes the code passes
  the session to: the stock updates and the order insert. Commit applies them and abort drops them.
  The cart deletions are not passed the session, so they reach the store at once.
  `OrderController.CreateOrder` is the imperative handler. It is proved against the specification
  function `OrderController.Checkout`, and the checkout's properties are proved about that function.
  `getOrder` is modelled as its user gate and its listing of the caller's orders.
- **Category tree** (`categoryController`). The model covers the recursive `getChildren` tree
  builder, the first-occurrence de-duplication loop of `getByBrand`, and the decisions of the
  `getChildren` and `update` handlers.
- **Request validators** (`src/validations/*`). Each middleware is a decision from request fields
  and lookup results to an outcome: `next()`, 400, 404, 409, 500, or no response at all. Where a
  middleware rewrites `req.body` in place (`addAddress`, category `create` and `update`), the body is
  the class `Js.RequestBody` and the method states the new body.

JavaScript truthiness, property reads on plain objects, `Object.assign` and `toLowerCase` are in
`Js` (file `js.dfy`), with the document id type and the id and lookup guards most middlewares
open with. Store lookups that can find a document, find none or throw are `Js.Lookup`.

## Model

| member | source | states |
|---|---|---|
| OrderController.CreateOrder | src/controllers/orderController.ts:50-134 | The handler's response and the store it leaves are exactly those of the specification `Checkout`, over the same starting store. |
| OrderController.StageLines | src/controllers/orderController.ts:72-88 | The cart loop stops at the first line whose combination is gone. The lines before it are all resolved. For each of them the stock write is staged in the session (later writes to one combination replace earlier ones), the cart document is deleted outside the transaction, and the item is built. Nothing else in the store changes. |
| OrderController.CheckoutResponse | src/controllers/orderController.ts:59-64 | 404 exactly when there is no user or no requested cart line exists, and then the store is unchanged. 201 exactly when there is a user, some requested line exists, every requested line's combination exists and the user has a default address. Otherwise 500. |
| OrderController.CheckoutCreates | src/controllers/orderController.ts:81-108 | On success the order belongs to the caller and keeps the caller's total price and delivery date. Its state is `AwaitingShipment`. It has one item per resolved line, in order, with product, combination, quantity and price = combination price × quantity. Shipping is the first default address. The order is appended, every requested cart line is gone and the others are untouched. |
| OrderController.CheckoutStock | src/controllers/orderController.ts:74-76 | On success every combination keeps its price. A combination no line is on keeps its stock. One that lines are on gets the stock read at lookup minus the quantity of the last such line only, with no floor. |
| OrderController.CheckoutFailure | src/controllers/orderController.ts:122-134 | On a 500 the stock, orders and addresses are as before, because the transaction is aborted. Cart lines deleted before the throw stay deleted. Only requested lines can be gone. Exactly the lines before the first one whose combination is gone are deleted, and the rest remain. When every line resolved, so that the throw came from the missing default address, all requested lines are gone. |
| OrderController.RetryAfterSuccess | src/controllers/orderController.ts:68-70 | Repeating a successful checkout finds none of its lines and answers 404 without changing the store. |
| OrderController.Resolve | src/controllers/orderController.ts:68 | The looked-up lines are exactly the requested ids present in the cart store, each once, each with its combination populated (absent when that combination is gone). |
| OrderController.Unresolved | src/controllers/orderController.ts:74-75 | The position of the first line whose combination is missing. Every earlier line is resolved, and it equals the number of lines iff all lines are resolved. |
| OrderController.ItemsSnapshot | src/controllers/orderController.ts:81-87 | The items are one per line, in order, copying product, combination and quantity, with price = combination price × quantity. |
| OrderController.StockWritesLastWins | src/controllers/orderController.ts:74-76 | A combination receives a stock write iff some line is on it. The value left is the last such line's stock-at-lookup minus its quantity. |
| OrderController.LastOn | src/controllers/orderController.ts:72-76 | The returned position is a line on the combination, and no later line is on it. |
| OrderController.CommittedStock | src/controllers/orderController.ts:76 | Committing the staged writes keeps every combination and its price. It changes stock only where a line wrote, and there to the last write. |
| OrderController.DefaultAddresses | src/controllers/orderController.ts:92 | An address is kept iff it is flagged default; a default head comes first. |
| OrderController.FirstDefault | src/controllers/orderController.ts:101 | The address used for shipping is the earliest address flagged default. No address before it is default, and soft-deleted addresses are not skipped. |
| OrderController.PlaceCreated | src/controllers/orderController.ts:70-101 | A 201 needs at least one line, every line resolved, and a default address. |
| OrderController.PlaceCommits | src/controllers/orderController.ts:96-108 | With resolved lines and a default address, the result is the created order together with the closed form of the committed store. |
| OrderController.UnresolvedAt | src/controllers/orderController.ts:74 | The first missing combination after a resolved prefix is where the loop throws. |
| OrderController.PrefixStep | src/controllers/orderController.ts:76-87 | One more resolved line extends the staged writes, the items and the deleted ids by that line only. |
| OrderController.GetOrder | src/controllers/orderController.ts:22-48 | 404 iff there is no user; otherwise the orders returned are exactly the caller's. |
| OrderController.OrdersOf | src/controllers/orderController.ts:34 | The orders kept are exactly those of the user. |
| OrderController.PrefixIds | src/controllers/orderController.ts:72-78 | With distinct line ids, a line's id is among the ids of a processed prefix iff the line lies in it. |
| OrderController.ResolveOne | src/controllers/orderController.ts:68 | Looking up one existing line yields that line. |
| OrderController.ResolveTwo | src/controllers/orderController.ts:68 | Looking up two distinct existing lines yields both, in request order. |
| OrderController.StockWritesTwo | src/controllers/orderController.ts:74-76 | Two lines stage two writes, the second applied over the first. |
| OrderController.TwoLineCheckout | src/controllers/orderController.ts:72-115 | Worked example with two lines, prices 10 and 25 and stocks 5 and 4: a 201 with items priced 20 and 25, stocks 3 and 3, carts emptied, one order. |
| OrderController.SameCombinationLastWriteWins | src/controllers/orderController.ts:74-76 | Two lines of 2 and 3 units on one combination with stock 10 leave stock 7, not 5. |
| OrderController.OversellAndAnyTotal | src/controllers/orderController.ts:75-104 | Ordering 3 of a combination with stock 1 succeeds and leaves -2. A total of 1 against an item sum of 12 is stored as given. |
| OrderController.NoDefaultAddressLosesCart | src/controllers/orderController.ts:78-134 | Without a default address the answer is 500: stock and orders are unchanged, and the cart line is deleted. |
| OrderStore.WithStock | src/controllers/orderController.ts:76 | Committing stock writes keeps the set of combinations and their prices, and replaces stock exactly where written. |
| OrderStore.Store.DeleteCart | src/controllers/orderController.ts:78 | The cart line is removed at once; nothing else changes. |
| OrderStore.Store.Apply | src/controllers/orderController.ts:108 | The committed stock writes and inserted orders become the store's combinations and orders. |
| OrderStore.Session.StartTransaction | src/controllers/orderController.ts:66 | A transaction is open and nothing is staged. |
| OrderStore.Session.UpdateStock | src/controllers/orderController.ts:76 | The stock write is staged, replacing any earlier write to that combination. |
| OrderStore.Session.InsertOrder | src/controllers/orderController.ts:96-106 | The order is staged for insertion. |
| OrderStore.Session.Commit | src/controllers/orderController.ts:108 | The staged writes reach the store, and the session leaves the transaction. |
| OrderStore.Session.Abort | src/controllers/orderController.ts:125-128 | The staged writes are dropped without reaching the store. |
| CategoryController.GetChildrenSpec | src/controllers/categoryController.ts:19-40 | The nodes are exactly the entries with exactly `depth` parents among which is `rootId`, in source order. Each node carries name, slug and id, no parents, and as children the tree one level deeper under its own id. |
| CategoryController.GetChildrenEmptyBeyondDepth | src/controllers/categoryController.ts:27-28 | Deeper than the longest `parents` list the result is empty, which bounds the recursion. |
| CategoryController.Matches | src/controllers/categoryController.ts:26-29 | An entry is selected iff it is a child of `rootId` at `depth`. |
| CategoryController.MatchesAppend | src/controllers/categoryController.ts:25 | Selection distributes over concatenation, so children keep their relative source order. |
| CategoryController.ScanIsNodesOfMatches | src/controllers/categoryController.ts:25-38 | The loop from position `i` returns the nodes of the matches in the rest of the source. |
| CategoryController.MatchesNone | src/controllers/categoryController.ts:26-29 | When no entry is a child, nothing is selected. |
| CategoryController.NodesOf | src/controllers/categoryController.ts:31-36 | One node per selected entry, each built from that entry. |
| CategoryController.MaxParents | src/controllers/categoryController.ts:27 | Bounds the length of every `parents` list present. |
| CategoryController.DistinctCategories | src/controllers/categoryController.ts:141-148 | The nested loop returns the first category of each id over all products' categories, in order. |
| CategoryController.FirstByIdDistinct | src/controllers/categoryController.ts:144 | No two kept categories share an id. |
| CategoryController.FirstByIdCovers | src/controllers/categoryController.ts:141-148 | Every id of the input is kept, and only input categories are kept. |
| CategoryController.FirstByIdFirstAppearance | src/controllers/categoryController.ts:144-146 | Each kept category is the first input entry with its id. |
| CategoryController.FirstByIdOrder | src/controllers/categoryController.ts:141-148 | Kept categories appear in the order in which their ids first appear. |
| CategoryController.FirstIndex | src/controllers/categoryController.ts:144 | The position of the first entry with the id; no earlier entry has it. |
| CategoryController.NewIdFirstIndex | src/controllers/categoryController.ts:144-146 | A category pushed because its id was not yet kept is the first of its id. |
| CategoryController.IdentityKeepsDuplicates | src/controllers/categoryController.ts:144 | As written, two products holding the same category through two distinct id objects keep both copies, and the tree then lists that category twice. Compared by value, only one copy is kept. |
| CategoryController.IdentityKeepsBoth | src/controllers/categoryController.ts:144 | Comparison by object identity keeps both holders of one document. |
| CategoryController.ValueKeepsOne | src/controllers/categoryController.ts:144 | Comparison by id value keeps one copy. |
| CategoryController.DuplicateShownTwice | src/controllers/categoryController.ts:150 | A child listed twice in the source appears twice in the tree. |
| CategoryController.FindByName | src/controllers/categoryController.ts:86-87 | The category found has the name; none is found iff no category has it. |
| CategoryController.WithParent | src/controllers/categoryController.ts:96 | Exactly the categories listing the id among their parents. |
| CategoryController.GetChildrenHandler | src/controllers/categoryController.ts:81-124 | A non-string filter gives 400. A filter that does not parse to a string `name` gives 500. 404 iff no category has the lower-cased name. When one has it, the reply is `Ok`, and every `Ok` is a category with that name together with the tree of its descendants from depth 1. |
| CategoryController.ParentIds | src/controllers/categoryController.ts:197 | The ids are exactly those of categories named in `parentNames`; none iff no category is named. |
| CategoryController.UpdateHandler | src/controllers/categoryController.ts:189-208 | 404 iff no parent name matches a category. Otherwise the update sets `name` and a non-empty list of exactly the matched parents' ids. |
| OrderValidation.CreateOrder | src/validations/orderValidation.ts:14-21 | `next()` iff `cartId` is an array and `totalPrice` is truthy. Otherwise there is no response at all. |
| OrderValidation.EmptyCartPassesZeroTotalFallsThrough | src/validations/orderValidation.ts:15-17 | An empty `cartId` array passes; a zero total falls through. |
| SearchValidation.Search | src/validations/searchValidation.ts:8-18 | `next()` iff `filter` is a non-empty string or both `keyword` and `types` are truthy; otherwise 400. |
| SearchValidation.KeywordNeedsTypes | src/validations/searchValidation.ts:10 | A keyword without `types` and without a string filter is a 400. |
| ProductValidation.GetById | src/validations/productValidation.ts:11-18 | `next()` iff the id is truthy; otherwise 400. |
| ProductValidation.GetBySlug | src/validations/productValidation.ts:31-38 | `next()` iff the slug is truthy; otherwise 400. |
| ProductValidation.Create | src/validations/productValidation.ts:55-72 | `next()` iff at least one of the nine fields is truthy; 400 only when all are falsy. |
| ProductValidation.Delete | src/validations/productValidation.ts:85-92 | `next()` iff the id is truthy; otherwise 400. |
| ProductValidation.NameAloneCreates | src/validations/productValidation.ts:55-72 | A body with only a name passes. |
| BrandValidation.Create | src/validations/brandValidation.ts:20-33 | `next()` iff all five fields are truthy; otherwise 400. |
| BrandValidation.Update | src/validations/brandValidation.ts:50-77 | 400 without an id. 404 for an unknown brand; 500 when the lookup throws. `next()` iff one of description, logo and the two banners is truthy; otherwise 400. |
| BrandValidation.Delete | src/validations/brandValidation.ts:90-105 | 400 without an id, 404 for an unknown brand, 500 when the lookup throws, else `next()`. |
| BrandValidation.GetBySlug | src/validations/brandValidation.ts:118-125 | `next()` iff the slug is truthy; otherwise 400. |
| BrandValidation.NameAloneIsNotAnUpdate | src/validations/brandValidation.ts:65-77 | A body with only `name` is refused with 400. |
| UserValidation.AddAddressOutcome | src/validations/userValidation.ts:21-53 | 400 without an id. 404 for an unknown user; 500 when the lookup throws. `next()` iff all eight address fields are truthy (`recipientName` is not required); otherwise 400. |
| UserValidation.AddAddress | src/validations/userValidation.ts:15-61 | Takes that decision. On `next()` the body's `user` is set to the found user's id; otherwise the body is unchanged. |
| UserValidation.GetAddress | src/validations/userValidation.ts:70-85 | 400 without an id, 404 for an unknown user, 500 when the lookup throws, else `next()`. |
| UserValidation.UpdateCart | src/validations/userValidation.ts:102-126 | `next()` iff the action is "add" or "update", combination and quantity are truthy, "update" comes with an id and "add" with a product; otherwise 400. |
| UserValidation.DeleteCart | src/validations/userValidation.ts:145-152 | `next()` iff the id is truthy; otherwise 400. |
| UserValidation.ZeroQuantityRefused | src/validations/userValidation.ts:102-112 | Quantity 0 is refused. |
| UserValidation.DeclaredPlusMinusRefused | src/validations/userValidation.ts:102-112 | The actions "plus" and "minus" are refused. |
| CategoryValidation.GetChildren | src/validations/categoryValidation.ts:19-26 | `next()` iff `filter` is a non-empty string; otherwise 400. |
| CategoryValidation.GetCategoryByBrand | src/validations/categoryValidation.ts:39-46 | `next()` iff `brand` is a non-empty string; otherwise 400. |
| CategoryValidation.CreateOutcome | src/validations/categoryValidation.ts:63-85 | 400 without a name; 500 when the name is not a string. 409 iff the lower-cased name exists; `next()` iff it does not. |
| CategoryValidation.Create | src/validations/categoryValidation.ts:57-93 | Takes that decision. On `next()` the body's name is replaced by its lower-cased form; otherwise the body is unchanged. |
| CategoryValidation.LowerName | src/validations/categoryValidation.ts:81-83 | Only `name` changes in the body. |
| CategoryValidation.CreateRewriteIdempotent | src/validations/categoryValidation.ts:81-85 | Lower-casing the name twice equals once, and the rewritten body passes again. |
| CategoryValidation.UpdateOutcome | src/validations/categoryValidation.ts:102-132 | 400 without an id. 404 for an unknown category. 500 when the lookup throws, and 500 when the id and category are good but the rewrite throws. `next()` iff the original `name` or `parentNames` is truthy; otherwise 400. |
| CategoryValidation.Update | src/validations/categoryValidation.ts:96-140 | Takes that decision. Once the id and category are good and nothing throws, the body is rewritten (whether the request goes on or gets a 400); otherwise it is unchanged. |
| CategoryValidation.UpdateAssignment | src/validations/categoryValidation.ts:117-123 | `name` and `parentNames` are replaced, each keeping its truthiness. |
| CategoryValidation.UpdateRewrite | src/validations/categoryValidation.ts:120-123 | Only `name` and `parentNames` change in the body. |
| CategoryValidation.LowerEach | src/validations/categoryValidation.ts:117-118 | Each element of `parentNames` is lower-cased, in place of position. |
| CategoryValidation.UpdateRewriteIdempotent | src/validations/categoryValidation.ts:117-123 | Applying the rewrite to its own output changes nothing. |
| CategoryValidation.Delete | src/validations/categoryValidation.ts:145-160 | 400 without an id, 404 for an unknown category, 500 when the lookup throws, else `next()`. |
| Js.RequireId | src/validations/productValidation.ts:11-18 | `next()` iff the route parameter is truthy; otherwise 400. |
| Js.RequireFound | src/validations/userValidation.ts:21-34 | 400 without an id, 404 when the lookup finds nothing, 500 when it throws; `next()` iff there is an id and the document is found. |
| Js.Lower | src/validations/categoryValidation.ts:71 | Lower-casing keeps the length and maps each character to its lower case. |
| Js.LowerIdempotent | src/validations/categoryValidation.ts:81-83 | Lower-casing twice is lower-casing once. |
| Js.LowerKeepsTruthiness | src/validations/categoryValidation.ts:121 | A lower-cased string is truthy iff the original was. |
| Js.RequestBody.Assign | src/validations/userValidation.ts:46 | `Object.assign`: the given keys overwrite and the others stay. |

## Left out

- HTTP plumbing: Express request and response objects, routing, CORS and the JSON response bodies. Responses are an outcome enum or a `Response`/`Reply` datatype.
- OrderController.GetOrder: the `{ user: 0 }` projection of `orderService.getByUserId` (src/services/orderService.ts:11), which leaves the `user` field out of the orders returned, is not modelled; the orders are returned whole.
- Authentication. The user context is an input that is present or absent.
- The delivery date. It is computed from the wall clock (`createDateAddDaysFromNow(7)`), so it is an input of the checkout.
- `JSON.parse` of the `getChildren` filter. The parsed `name` is an input, absent when parsing throws or the name is not a string.
- Logging, and isolation between concurrent checkouts on one combination (a property of the data store, not of this code).
- Store exceptions other than a missing combination (its stock read throws) and a missing default address (`shipping[0].id` throws), including failures of the store calls themselves.
- The store services. src/services/cartService.ts defines neither `getManyByCartId` nor `deleteOne` (it has `getByCartId` and `delete`), and src/services/combinationService.ts defines only `create`, so as these files stand the calls at orderController.ts:68, 76 and 78 would throw. They are modelled as abstract store operations: a lookup of the requested ids in first-mention order, an immediate delete, and a staged absolute stock write.
- `orderService.createOrder` persists only `user`, `products` and `totalPrice` (src/services/orderService.ts:16-24), and the order schema requires a `referenceCode` the controller never sets (src/models/order.ts:42-45). The model stores the order the controller builds, as the controller intends; schema validation is not modelled.
- OrderController.CheckoutCreates: an order item records the combination's id, where the source stores the populated combination document.
- OrderController.Checkout: there is no check that the cart lines belong to the caller; the model follows the code and has none either.
- An all-or-nothing checkout would restore the deleted cart lines on abort. The code deletes them without the session, so they survive an abort; the model follows the code (`CheckoutFailure`, `NoDefaultAddressLosesCart`).
- Js.Lower: only the ASCII letters are lower-cased; Unicode case mapping is not modelled.
- Js.Truthy: NaN and `-0` are not representable; numbers are integers. Prices, quantities and stock are unbounded integers.
- The cart payload type declares the actions "plus" and "minus", but the validator refuses them (`DeclaredPlusMinusRefused`); the model follows the validator.
- CategoryController.UpdateHandler: the store write (`updateById`) and its response are not modelled, and neither is an absent `parentNames` (the `$in` query on `undefined`). The handler is given the names as a list.
- The rest of `getByBrand` (brand and root lookups, the product filter) and the other controllers (products, brands, search, users, auth).

## Findings

| source | as written | input that shows it | evidently intended | confidence | as-written member | corrected member |
|---|---|---|---|---|---|---|
| src/controllers/categoryController.ts:144 | `i._id === cat._id` compares two `ObjectId` objects by identity, not by value | two products whose `categories` each hold their own copy of the category `c1` document, so each copy has its own `_id` object. Mongoose's `populate` by default hands every product one shared copy of a referenced document, in which case `===` holds and nothing is duplicated; and src/services/productService.ts defines no `filter`, so as these files stand the call at categoryController.ts:140 would throw, and which case applies is not known | keep one copy per category id, comparing ids by value (`.equals` or string form) | low: depends on the store handing each product its own document copy, which a default populate does not do; not executed | CategoryController.IdentityKeepsDuplicates | CategoryController.FirstByIdDistinct |
