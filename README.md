# Storefront cart, checkout and order fulfilment, modelled in Dafny

This project models the server-side logic of a small Next.js storefront that
uses Prisma for storage, Clerk for sign-in, Stripe for payment and a language
model for meal planning. The modelled parts are:

- the cart server actions (read the cart, add one product, add a batch, remove an item);
- checkout-session construction;
- the two order-fulfilment entry points: the confirmation page `/success` and the Stripe webhook `POST /api/webhook`;
- the order history query;
- the budget meal planner's validation and shopping-list matching;
- the seeding script's insert-if-absent loops.

## How the model is built

The store is the class `Storage.Database`. It has one `seq` field per table: carts, cart items, products, categories and orders. It also has a counter that hands out fresh row ids. `Storage.Tables` is a value snapshot of the store.

- **Database writes.** Every Prisma write the code issues is a method of `Database`: create, update by id, delete by id, and delete-many by cart. Each method is proved equal to a function on `Tables`, and a lemma beside that function says what the write does.
- **Database reads.** The reads (`findUnique`, `findFirst`, `findMany`) change nothing, so they are functions on the tables: `Storage.CartOfOwner`, `CartWithId`, `ProductWithId`, `ItemWithId`, `ItemFor`, `ItemsOfCart`, `HasSessionOrder` and `SessionOrderCount`, `Seed.HasSlug` and `HasName`, and `Orders.OrdersOf`.
- **Store invariant.** `ValidTables` holds the primary keys, one cart per user, at most one item per (cart, product), and the cart item's foreign keys.
- **Unique session id.** The schema is not part of this model, so whether `Order.stripeSessionId` is unique is a parameter of the store (`uniqueSessionIds`).
- **Actions.** Each server action that changes the store is a method made of the database calls it issues. It is proved equal to an `...Effect` function of the old snapshot. Its properties are lemmas about that function.
- **Pure actions.** Checkout and the order listing change nothing, so they are functions.
- **External services are inputs:**
  - the signed-in user is an `Option<string>`;
  - the Stripe signature check yields the event or `None`;
  - the retrieved checkout session is an input record;
  - the model's shopping list is an input sequence;
  - the database's case-insensitive lookup is a function constrained only by `FuzzyAgrees`;
  - a thrown storage call is named by a `fault` input.
- **Money** is integer cents throughout.

## Model

| member | source | states |
|---|---|---|
| Storage.CartOfOwner | components/lib/actions/cart.ts:12-13 | the cart found is one the user owns; none is found only when the user owns no cart |
| Storage.CartWithId | app/success/page.tsx:46-53 | the cart found has the id; none is found exactly when no cart has it |
| Storage.ItemFor | components/lib/actions/cart.ts:78-83 | the item found belongs to the cart and the product; none found means no such item exists |
| Storage.ItemsOfCart | app/success/page.tsx:48-53 | exactly the items of the cart |
| Storage.ProductWithId | app/success/page.tsx:49-51 | the product found has the id; none is found exactly when no product has it |
| Storage.ItemWithId | components/lib/actions/cart.ts:50-53 | the item found has the id; none found means no item has it |
| Storage.ItemsOutsideCart | app/success/page.tsx:74-76 | after deleteMany on a cart, exactly the other carts' items remain |
| Storage.ItemsWithoutId | components/lib/actions/cart.ts:56-58 | after delete by id, exactly the other items remain |
| Storage.SessionOrderCount | app/success/page.tsx:40-42 | the count is zero exactly when no order carries the session id |
| Storage.AddCartAppends | components/lib/actions/cart.ts:73-75 | the new cart belongs to the owner and takes an id no cart has; only the carts and the id counter change |
| Storage.SetQuantityChangesOne | components/lib/actions/cart.ts:86-89 | only the quantity of the item with the id changes; every item keeps its place, id, cart and product |
| Storage.AddItemAppends | components/lib/actions/cart.ts:91-97 | the item is created exactly when its cart and product exist, with an id no item has; otherwise nothing changes |
| Storage.DeleteItemRemovesOne | components/lib/actions/cart.ts:56-58 | exactly the item with the id is removed; no other table changes |
| Storage.ClearCartRemovesItems | app/success/page.tsx:74-76 | exactly the cart's items are removed; the cart row and the other tables stay |
| Storage.AddOrderAppends | app/success/page.tsx:57-71 | the order is created unless the session id is unique and taken; it gets an id no order has and carries the session id; otherwise nothing changes |
| Storage.AddCategoryAppends | lib/prisma/seed.ts:33-35 | the category is appended with an id no category has; nothing else changes |
| Storage.AddProductAppends | lib/prisma/seed.ts:62-64 | the product is appended with an id no product has; nothing else changes |
| Storage.AddCartKeepsValid | components/lib/actions/cart.ts:72-76 | creating a cart for a user without one keeps the store invariant |
| Storage.SetQuantityKeepsValid | components/lib/actions/cart.ts:86-89 | updating an item's quantity keeps keys, one item per (cart, product) and foreign keys |
| Storage.AddItemKeepsValid | components/lib/actions/cart.ts:91-97 | creating an item for a (cart, product) pair that has none keeps the invariant |
| Storage.DeleteItemKeepsValid | components/lib/actions/cart.ts:56-58 | deleting an item keeps the invariant |
| Storage.ClearCartKeepsValid | app/success/page.tsx:74-76 | deleting a cart's items keeps the invariant |
| Storage.AddOrderKeepsValid | app/success/page.tsx:57-71 | creating an order keeps the invariant, including session uniqueness when the schema demands it |
| Storage.AddCategoryKeepsValid | lib/prisma/seed.ts:32-35 | creating a category keeps the invariant |
| Storage.AddProductKeepsValid | lib/prisma/seed.ts:61-64 | creating a product keeps the invariant |
| Storage.Database.CreateCart | components/lib/actions/cart.ts:73-75 | appends a cart with a fresh id for the owner |
| Storage.Database.UpdateQuantity | components/lib/actions/cart.ts:86-89 | sets the quantity of the item with the id; nothing else changes |
| Storage.Database.CreateItem | components/lib/actions/cart.ts:91-97 | appends the item with a fresh id, or is refused when the cart or product does not exist |
| Storage.Database.DeleteItemWithId | components/lib/actions/cart.ts:56-58 | removes the item with the id |
| Storage.Database.DeleteItemsOfCart | app/success/page.tsx:74-76 | removes the cart's items and keeps the cart row |
| Storage.Database.CreateOrder | app/success/page.tsx:57-71 | appends the order with its lines, or is refused for a duplicate session id when that is unique |
| Storage.Database.CreateCategory | lib/prisma/seed.ts:33-35 | appends a category with a fresh id |
| Storage.Database.CreateProduct | lib/prisma/seed.ts:62-64 | appends a product with a fresh id |
| Sorting.SortBy | components/lib/actions/cart.ts:19-21 | the result is ordered by the key and is a permutation of the input |
| CartActions.WithProducts | components/lib/actions/cart.ts:14-18 | each item is paired with the catalog product of its product id, in order |
| CartActions.GetCart | components/lib/actions/cart.ts:8-42 | null exactly when signed out or cartless; otherwise the caller's own cart, with exactly its items (as a multiset) ordered by product id ascending, each joined with its product |
| CartActions.CartForEffect | components/lib/actions/cart.ts:68-76 | the cart used belongs to the caller and is in the store; an existing cart changes nothing; otherwise only the carts and the id counter change |
| CartActions.UpsertEffect | components/lib/actions/cart.ts:78-98 | only items and the id counter change; the upsert fails, changing nothing, exactly when there is no such item and the create is refused |
| CartActions.UpsertAllEffect | components/lib/actions/cart.ts:124-146 | the batch changes only the items and the id counter |
| CartActions.AddToCartEffect | components/lib/actions/cart.ts:64-100 | "Unauthorized" exactly without a user, and then nothing changes; orders, products and categories never change |
| CartActions.AddAllToCartEffect | components/lib/actions/cart.ts:105-149 | "Unauthorized" exactly without a user, and then nothing changes; orders, products and categories never change |
| CartActions.RemoveFromCartEffect | components/lib/actions/cart.ts:45-61 | "Unauthorized" exactly without a user; no other error; only items change, and none is added |
| CartActions.CartForKeepsValid | components/lib/actions/cart.ts:68-76 | finding or creating the caller's cart keeps the invariant |
| CartActions.CartForFindsOne | components/lib/actions/cart.ts:68-76 | afterwards the caller has exactly one cart, the one used; it is created with a fresh id only when there was none; nothing else changes |
| CartActions.UpsertKeepsValid | components/lib/actions/cart.ts:78-98 | the find-then-update-or-create keeps one item per (cart, product) |
| CartActions.UpsertAllKeepsValid | components/lib/actions/cart.ts:124-146 | the batch of upserts keeps the invariant and changes only the items |
| CartActions.AddToCartKeepsValid | components/lib/actions/cart.ts:64-100 | addToCart keeps the invariant |
| CartActions.AddAllToCartKeepsValid | components/lib/actions/cart.ts:105-149 | addAllToCart keeps the invariant |
| CartActions.FreshCartIsEmpty | components/lib/actions/cart.ts:72-83 | a cart just created holds no item for any product |
| CartActions.CartActionsNeedUser | components/lib/actions/cart.ts:45-107 | without a user, addToCart, addAllToCart and removeFromCart throw "Unauthorized" and change nothing |
| CartActions.AddToCartRaisesQuantity | components/lib/actions/cart.ts:64-89 | with an existing (cart, product) item, exactly that item's quantity rises by the quantity (default 1); no row is added |
| CartActions.AddToCartCreatesItem | components/lib/actions/cart.ts:64-98 | with no such item, one item with the quantity is appended to the caller's cart; carts, products, orders and categories are unchanged; a missing product makes the create fail |
| CartActions.AddOneThenTwo | components/lib/actions/cart.ts:64-98 | adding a product with the default quantity and then with 2 leaves one item for it with quantity 3 |
| CartActions.AddAllIsAddEach | components/lib/actions/cart.ts:105-146 | a batch add equals single adds, one per entry in order, on the caller's cart |
| CartActions.UpsertAllIsAddEach | components/lib/actions/cart.ts:124-146 | the batch's upserts on the caller's cart are the single-item adds in order |
| CartActions.RemoveFromCartDeletesOnlyOwned | components/lib/actions/cart.ts:45-61 | exactly the caller's item with the id is deleted; a missing or foreign id changes nothing and gives no error |
| CartActions.GetOrCreateCart | components/lib/actions/cart.ts:68-76 | the calls equal the find-or-create specification |
| CartActions.Upsert | components/lib/actions/cart.ts:78-98 | the calls equal the update-or-create specification |
| CartActions.AddToCart | components/lib/actions/cart.ts:64-100 | the calls equal the addToCart specification and keep the invariant |
| CartActions.AddAllToCart | components/lib/actions/cart.ts:105-149 | the loop of upserts equals the addAllToCart specification and keeps the invariant |
| CartActions.RemoveFromCart | components/lib/actions/cart.ts:45-61 | the calls equal the removeFromCart specification and keep the invariant |
| Payments.Snapshot | app/success/page.tsx:63-69 | one order line per cart item, in order, with its product id, quantity and its product's current price |
| Payments.ClearTwice | app/success/page.tsx:78-84 | clearing a cart again after it was cleared changes nothing |
| SuccessPage.LoadEffect | app/success/page.tsx:13-92 | the invalid-session view exactly when session_id is missing or empty; every cart item keeps its cart and product |
| SuccessPage.LoadKeepsValid | app/success/page.tsx:27-90 | the page keeps the whole store invariant, including session uniqueness when the schema demands it |
| SuccessPage.Fulfil | app/success/page.tsx:27-90 | the fulfilment keeps every cart item's cart and product |
| SuccessPage.OrderFromCart | app/success/page.tsx:55-77 | order creation and cart clearing keep every cart item's cart and product |
| SuccessPage.OrderFromCartKeepsValid | app/success/page.tsx:55-77 | order creation and cart clearing keep the whole store invariant |
| SuccessPage.NoSessionChangesNothing | app/success/page.tsx:16-25 | without a session id, nothing changes and the invalid-session view is shown |
| SuccessPage.ChangesOnlyWhenFulfillable | app/success/page.tsx:34-38 | the store changes only for a retrieved paid session with both userId and cartId; the success view is always shown |
| SuccessPage.ExistingOrderOnlyClears | app/success/page.tsx:78-84 | with an order for the session, no order is created and exactly the cart's items are deleted |
| SuccessPage.FirstVisitCreatesOrder | app/success/page.tsx:44-77 | with no order and a non-empty cart, exactly one order is appended (buyer, the amount charged as total, session id, PROCESSING, one line per item with the current price); the cart is emptied and kept |
| SuccessPage.FirstVisitShape | app/success/page.tsx:44-77 | a first visit with a non-empty cart leaves the store with the new order appended and then the cart cleared |
| SuccessPage.OrderFromCartShape | app/success/page.tsx:57-77 | for a session with no order, the create succeeds and is followed by the clear |
| SuccessPage.SnapshotIsOrderOfCart | app/success/page.tsx:57-71 | the created order has the buyer, the amount charged, the session id, PROCESSING, the time, and one line per cart item with the product's price |
| SuccessPage.AppendOrderThenClear | app/success/page.tsx:57-77 | after the create and the clear, the earlier orders stay, the new order is last and the session's only one, and exactly the cart's items are gone |
| SuccessPage.NoCartOrNoItemsChangesNothing | app/success/page.tsx:55 | with no order and a missing or empty cart, nothing changes |
| SuccessPage.FaultsAreSwallowed | app/success/page.tsx:87-90 | a storage failure still shows success; a failing order lookup changes nothing; only a failing final clear can leave a new order |
| SuccessPage.RetrieveFailureChangesNothing | app/success/page.tsx:27-32 | a failed session retrieval changes nothing and still shows success |
| SuccessPage.ReloadIsIdempotent | app/success/page.tsx:40-84 | loading the page a second time for the same session changes nothing |
| SuccessPage.SecondVisitOnlyClears | app/success/page.tsx:78-84 | a session that has an order is fulfilled by clearing its cart only |
| SuccessPage.CreatedOrderIsSettled | app/success/page.tsx:57-84 | after the create and the clear the session has an order, and clearing the cart again changes nothing |
| SuccessPage.Load | app/success/page.tsx:13-92 | the calls equal the page specification and keep the invariant |
| SuccessPage.CreateFromCart | app/success/page.tsx:55-77 | the create-then-clear calls equal their specification |
| Webhook.PostEffect | app/api/webhook/route.ts:10-104 | the answer is one of 200, 400, 404, 500; every cart item keeps its cart and product |
| Webhook.PostKeepsValid | app/api/webhook/route.ts:29-95 | the callback keeps the whole store invariant |
| Webhook.CreateAndClear | app/api/webhook/route.ts:65-100 | order creation and clearing answer 200 or 500 and keep every cart item's cart and product |
| Webhook.CreateAndClearKeepsValid | app/api/webhook/route.ts:65-89 | order creation and clearing keep the whole store invariant |
| Webhook.GuardedPostEffect | app/api/webhook/route.ts:29-95 | the callback with the existence check added answers 200, 400, 404 or 500 and keeps every cart item's cart and product |
| Webhook.GuardedPostKeepsValid | app/api/webhook/route.ts:29-95 | the guarded callback keeps the whole store invariant |
| Webhook.EarlyExitsChangeNothing | app/api/webhook/route.ts:16-37 | a bad signature or missing metadata answers 400, another event type 200; 400 and 404 change nothing; only a completed checkout changes the store |
| Webhook.LookupOrCreateFaultIsServerError | app/api/webhook/route.ts:45-100 | a throwing cart lookup, or a throwing order create on an existing cart, answers 500 and changes nothing |
| Webhook.MissingCartIsNotFound | app/api/webhook/route.ts:56-60 | an unknown cart answers 404 and changes nothing |
| Webhook.CompletedCheckoutCreatesOrder | app/api/webhook/route.ts:65-95 | with the cart the metadata names, even an empty one, one order is appended with the amount charged as its total and the snapshot lines, also when the session has an order already unless the session id is unique; the cart's items are deleted; the answer is 200 |
| Webhook.CompletedCheckoutShape | app/api/webhook/route.ts:45-89 | a completed checkout for an existing cart leaves the store with the new order appended and then the cart cleared, and answers 200 |
| Webhook.CreateAndClearShape | app/api/webhook/route.ts:65-89 | with the create allowed, the order is appended and then the cart cleared, and the answer is 200 |
| Webhook.DuplicateRefusedByUniqueSessionIds | app/api/webhook/route.ts:65-100 | with a unique session id, a second order's create throws: 500 and nothing changes |
| Webhook.ClearFailureKeepsOrder | app/api/webhook/route.ts:85-100 | a failing clear answers 500 and keeps the new order and the items |
| Webhook.Post | app/api/webhook/route.ts:10-104 | the calls equal the callback specification and keep the invariant |
| Webhook.CreateOrderAndClear | app/api/webhook/route.ts:65-100 | the create-then-clear calls equal their specification |
| Races.PageAddsOnlyFresh | app/success/page.tsx:40-77 | the page appends at most one order, and only for a session with none |
| Races.PageKeepsOneOrderPerSession | app/success/page.tsx:39-84 | the page never makes a second order for any session |
| Races.GuardedCallbackKeepsOneOrderPerSession | app/api/webhook/route.ts:29-95 | the callback with the existence check never makes a second order for any session |
| Races.PageThenCallbackDuplicates | app/api/webhook/route.ts:45-79 | page first, then callback: the callback answers 200 and the session ends with two orders, the second with no lines |
| Races.CallbackAfterFulfilment | app/api/webhook/route.ts:45-95 | the callback on an emptied cart adds one more order for the session, with no lines |
| Races.PageThenCallbackRefusedWhenUnique | app/api/webhook/route.ts:65-100 | with a unique session id, that late callback answers 500 and changes nothing |
| Races.CallbackThenPageKeepsOne | app/success/page.tsx:40-84 | callback first, then page: one order for the session, and the page changes nothing |
| Races.PageAfterFulfilment | app/success/page.tsx:78-84 | the page for a fulfilled session with an emptied cart changes nothing |
| Races.CheckoutThenPage | components/lib/actions/checkout.ts:28-51 | the checkout metadata leads the page to the caller's cart; the order's lines match the line items in quantity and unit price, and the cart is emptied |
| Races.DiscountedCartStoresAmountCharged | app/api/webhook/route.ts:68 | both the callback and the page (app/success/page.tsx:60) store the amount charged: lines worth 5000 cents paid with 4500 give a total of 4500 |
| Checkout.LineItems | components/lib/actions/checkout.ts:28-40 | one line item per cart item, in order, built from the item's product |
| Checkout.CreateCheckoutSession | components/lib/actions/checkout.ts:11-52 | the only errors are "Unauthorized" and "Cart is empty" |
| Checkout.CheckoutGuards | components/lib/actions/checkout.ts:12-26 | "Unauthorized" exactly without a user; "Cart is empty" exactly when the user's cart is missing or empty; otherwise a request |
| Checkout.RequestMirrorsCart | components/lib/actions/checkout.ts:28-51 | one usd line item per cart item, in order, with the product's name, image and price in cents and the item's quantity; metadata holds the user and the cart id |
| Orders.OrdersOf | components/lib/actions/orders.ts:14-17 | exactly the orders of the owner |
| Orders.NewestFirstIsDescendingTime | components/lib/actions/orders.ts:25-27 | sorting ascending on the key puts later orders first |
| Orders.GetUserOrders | components/lib/actions/orders.ts:6-35 | "Unauthorized" exactly without a user, "Failed to fetch orders" exactly on a storage error; otherwise exactly the caller's orders, newest first |
| BudgetPlanner.BudgetErrors | components/lib/actions/ai-budget.ts:8 | no error exactly for a number of at least 100 cents |
| BudgetPlanner.DaysErrors | components/lib/actions/ai-budget.ts:9 | no error exactly for a number from 1 to 30 |
| BudgetPlanner.PeopleErrors | components/lib/actions/ai-budget.ts:10 | no error exactly for a number of at least 1 |
| BudgetPlanner.Validate | components/lib/actions/ai-budget.ts:7-11 | valid exactly when budget is at least $1, days is 1 to 30 and people is at least 1; otherwise some field error |
| BudgetPlanner.ExactMatch | components/lib/actions/ai-budget.ts:112 | the product found is the first catalog product with exactly the name; none found means no product has it |
| BudgetPlanner.ContainsInsensitive | components/lib/actions/ai-budget.ts:124-126 | a name containing the needle as spelled matches; a needle longer than the name does not |
| BudgetPlanner.Resolve | components/lib/actions/ai-budget.ts:112-126 | when some catalog product has exactly the name, a product with that name is found, whatever the fuzzy lookup would give |
| BudgetPlanner.Matched | components/lib/actions/ai-budget.ts:110-135 | at most one matched product per list name |
| BudgetPlanner.PriceSum | components/lib/actions/ai-budget.ts:108-133 | the total cost of the matched products is never negative |
| BudgetPlanner.BudgetPlan | components/lib/actions/ai-budget.ts:39-155 | the action throws exactly when the input is valid and the catalog read fails; success exactly when a plan is returned; field errors exactly with "Validation failed" |
| BudgetPlanner.MatchShoppingList | components/lib/actions/ai-budget.ts:107-135 | the loop yields the matched products and their price sum, or reports the lookup that threw |
| BudgetPlanner.CreateBudgetPlan | components/lib/actions/ai-budget.ts:39-155 | the action equals the plan specification |
| BudgetPlanner.ValidationComesFirst | components/lib/actions/ai-budget.ts:47-56 | out-of-range input gives "Validation failed" with field errors, whatever the catalog and the model give |
| BudgetPlanner.EdgeValuesRefused | components/lib/actions/ai-budget.ts:8-9 | budget 0 and 31 days are refused with their messages; $1, 30 days and 1 person pass |
| BudgetPlanner.MatchedDistinct | components/lib/actions/ai-budget.ts:115-127 | matched products have pairwise distinct ids |
| BudgetPlanner.MatchedCoversResolutions | components/lib/actions/ai-budget.ts:110-135 | every matched product resolves from some list name, and every name that resolves is matched by id |
| BudgetPlanner.MatchedGrowsAtTheEnd | components/lib/actions/ai-budget.ts:110-135 | products matched for a list are a prefix of those for any extension: the order of first occurrence |
| BudgetPlanner.ResolutionPolicy | components/lib/actions/ai-budget.ts:112-126 | an exact name wins; otherwise a product whose name contains the item name ignoring case; with neither, nothing |
| BudgetPlanner.MatchedFromCatalog | components/lib/actions/ai-budget.ts:122-134 | every matched product is a catalog row |
| BudgetPlanner.UnmatchedNameIsDropped | components/lib/actions/ai-budget.ts:122-134 | a name that resolves to nothing changes nothing |
| BudgetPlanner.SuccessfulPlan | components/lib/actions/ai-budget.ts:137-146 | success exactly when valid, the model answers and no lookup throws; totalCost is the price sum of the matched products; remainingBudget is budget minus totalCost |
| BudgetPlanner.GenerationFailureHasNoPlan | components/lib/actions/ai-budget.ts:148-153 | a failing model call or lookup gives success false with no plan |
| BudgetPlanner.OverspendIsReported | components/lib/actions/ai-budget.ts:144 | the remaining budget is not clamped: it can be negative |
| BudgetPlanner.TypoIsNotMatched | components/lib/actions/ai-budget.ts:124-126 | "Organc Apples" does not match "Organic Apples": the fallback is a substring test |
| Seed.SeedCategories | lib/prisma/seed.ts:26-40 | the loop equals the category seeding specification and keeps the invariant |
| Seed.SeedProducts | lib/prisma/seed.ts:56-69 | the loop equals the product seeding specification and keeps the invariant |
| Seed.SeedAll | lib/prisma/seed.ts:14-73 | category seeding (when its file is readable) then product seeding |
| Seed.SeededCategoriesKeepsValid | lib/prisma/seed.ts:26-40 | category seeding keeps the invariant |
| Seed.CategoriesOnlyAppended | lib/prisma/seed.ts:37-39 | existing categories stay in place; only categories and ids change |
| Seed.CategoriesCoverInput | lib/prisma/seed.ts:26-40 | afterwards every input slug has a category |
| Seed.CategoriesInsertedFresh | lib/prisma/seed.ts:28-36 | a category is inserted only when no row has its slug |
| Seed.CategoriesFromFirstOccurrence | lib/prisma/seed.ts:26-40 | each inserted category comes from the first input entry with its slug |
| Seed.CategoriesPresentChangeNothing | lib/prisma/seed.ts:37-39 | with every slug present, nothing changes |
| Seed.CategoriesIdempotent | lib/prisma/seed.ts:26-40 | seeding the categories twice equals seeding them once |
| Seed.SeededProductsKeepsValid | lib/prisma/seed.ts:56-69 | product seeding keeps the invariant |
| Seed.ProductsOnlyAppended | lib/prisma/seed.ts:66-68 | existing products stay in place; only products and ids change |
| Seed.ProductsCoverInput | lib/prisma/seed.ts:56-69 | afterwards every input name has a product |
| Seed.ProductsInsertedFresh | lib/prisma/seed.ts:57-64 | a product is inserted only when no row has its name |
| Seed.ProductsFromFirstOccurrence | lib/prisma/seed.ts:56-69 | each inserted product comes from the first input entry with its name |
| Seed.ProductsPresentChangeNothing | lib/prisma/seed.ts:66-68 | with every name present, nothing changes |
| Seed.SeedIsIdempotent | lib/prisma/seed.ts:14-69 | afterwards every slug and name is present, and a second run adds nothing |
| Seed.CategoryFailureStillSeedsProducts | lib/prisma/seed.ts:19-69 | an unreadable category file leaves the categories alone, and all products are still seeded |

## Left out

- Rendering: the JSX of both pages and every client component. The confirmation page is reduced to which of its two views it shows.
- Clerk, Stripe and the language model:
  - `auth()` is an optional user id;
  - `constructEvent` is the verified event or `None`;
  - `sessions.retrieve` is an input record, and `sessions.create` is reduced to the request it receives;
  - `generateObject` is an input answer.
  - The prompt text and the returned session url are not modelled.
- The success page takes the retrieved session as given. That its id equals the `session_id` parameter is not checked.
- Response bodies and log lines of the callback: only status codes are modelled.
- Row ids are naturals handed out by the store, not cuid strings.
- CartActions.GetCart: orders by numeric product id; the source orders the id strings as text.
- CartActions.GetCart: timestamps and the conversion of Decimal prices to strings are left out, because they are serialization only.
- Prices and totals are integer cents. `Number(...)`, `/ 100`, `toFixed` and `Math.round(price * 100)` are exact conversions in the model, because floating point is out of scope.
- Concurrency:
  - `Promise.all` in addAllToCart runs its upserts one after another, so two entries for one product cannot race here;
  - the callback and the page run one after the other, never interleaved.
- Storage failures in the cart actions: only a refused item create (missing product) is modelled. Other thrown calls are not.
- Metadata `cartId` is a store id, with `None` for missing or empty. The source passes the id as a string.
- Orders.GetUserOrders: the `include` of order items with their products is not modelled. Orders with equal `createdAt` keep storage order, which the database does not promise.
- BudgetPlanner: budget, days and people are integers with `None` for a value that is not a number. Fractional values and infinities are left out.
- BudgetPlanner: lower-casing is ASCII only. The database's case-insensitive collation is not modelled.
- BudgetPlanner: the matched product's `category` field and the meals' contents are passed through unmodelled.
- Seed: reading and parsing the JSON files, and `process.exit`, are left to the caller.
- Seed: a failure in the middle of the category loop and a failure of the product phase are not modelled, and neither are product fields other than name, price and image.
- The admin dashboard, the auth sync route, the user-sync component and the home-page catalog reads are not part of this model.

## Where the code was followed

- removeFromCart ignores an item that is missing or belongs to someone else. It raises no authorization error (`CartActions.RemoveFromCartDeletesOnlyOwned`).
- The callback answers 404 whenever the cart row is missing, even when the session already has an order.
- The callback does not check that the session is paid.
- The callback has no existence check of its own; see Findings.
- The shopping-list fallback is a substring test. A misspelt name such as "Organc Apples" does not match "Organic Apples" (`BudgetPlanner.TypoIsNotMatched`).

## Findings

| source | as written | input that shows it | evidently intended | confidence | as-written member | corrected member |
|---|---|---|---|---|---|---|
| app/api/webhook/route.ts:45-79 | the callback creates an order for every completed-checkout event whose cart row exists, without looking for an order of the session, even when the cart is empty | the confirmation page fulfils a paid session first, then the callback arrives for it; the cart row is kept and emptied | at most one order per session, as the page's check "to prevent duplicates" (app/success/page.tsx:39-44) shows | medium, not executed | Races.PageThenCallbackDuplicates | Webhook.GuardedPostEffect |

`Races.PageThenCallbackDuplicates` proves the duplicate for the callback as written. The callback answers 200, and the session ends with two orders, the second with no lines. The first lines of `Webhook.GuardedPostEffect` are those of the page's existence check. `Races.GuardedCallbackKeepsOneOrderPerSession` proves that the guarded callback, like the page (`Races.PageKeepsOneOrderPerSession`), never makes a second order for a session. With a unique session id in the schema, the late callback is instead refused with a 500 and changes nothing (`Races.PageThenCallbackRefusedWhenUnique`).
