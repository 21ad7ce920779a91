# Shopifyr storefront core, in Dafny

Shopifyr is a storefront: a Spring backend (catalog, carts, orders, payments, reviews, wishlist,
analytics) behind a Next.js frontend. This project models the logic of both layers and proves
what that logic promises.

- **Backend services.** The database is a class `Entities.Store` with one map per JPA
  repository, from generated id to record, and one id generator.
  - Each service method is a method over the store.
  - It fails with the exception the Java code throws on the first failing check, in source order.
  - Every `@Transactional` method is all-or-nothing: an error result leaves the whole store
    unchanged.
  - On success it states the whole new store.
  - Every method keeps the store's invariant `Consistent`. It covers ids below the id generator;
    unique usernames, emails and role, category and brand names; non-negative stock; distinct cart
    lines; every payment's order existing; one review per user and product; and one wishlist
    entry per user and product.
- **Queries.** The JPQL queries become filter and group-by-sum functions over sequences. The
  analytics service and the query results are proved against them.
- **Config filters and parsers.** These are modelled in their own form:
  - CORS origin parsing and headers;
  - the permit list;
  - rate-limit buckets;
  - the `DATABASE_URL` rewrite;
  - upload validation;
  - the image path migration.
- **Frontend state.** The React contexts and pages become classes whose fields mirror their
  state variables. Local storage and the current location are a shared `Browser.Window`.
  - Network results, `JSON.parse` and navigation are parameters or recorded steps.
  - Each handler is proved to take its page from one state value to a function of the old one.

Money is in integer cents throughout. Java's `Long` ids and `int` quantities are unbounded
integers here.

## Model

| member | source | states |
|---|---|---|
| Entities.Store.SaveCart | backend/src/main/java/com/shopifyr/backend/service/CartService.java:89 | `cartRepository.save`: a consistent cart becomes the user's cart and nothing else changes |
| Entities.FindByUsername | backend/src/main/java/com/shopifyr/backend/service/WishlistService.java:31-32 | `findByUsername` finds the one user with that username, and finds nothing exactly when no user has it |
| Entities.FindByEmail | backend/src/main/java/com/shopifyr/backend/service/AuthService.java:65 | `findByEmail` finds the one user with that email, and finds nothing exactly when no user has it |
| Entities.StoreCart | backend/src/main/java/com/shopifyr/backend/service/CartService.java:89 | storing a consistent cart keeps the database consistent |
| CartService.SumSubtotalsOfLines | backend/src/main/java/com/shopifyr/backend/service/CartService.java:166-168 | the reduce over the response lines' subtotals equals the sum of unit price times quantity over the cart's items |
| CartService.ToResponse | backend/src/main/java/com/shopifyr/backend/service/CartService.java:154-177 | one response line per item, in order, with the item's id, product, quantity and unit price and subtotal = unit price times quantity; the total is the cart total |
| CartService.CartTotalAppend | backend/src/main/java/com/shopifyr/backend/service/CartService.java:82-89 | appending a line raises the total by that line's subtotal |
| CartService.CartTotalSetQuantity | backend/src/main/java/com/shopifyr/backend/service/CartService.java:74-80 | changing one line's quantity changes the total by its unit price times the change |
| CartService.CartTotalRemove | backend/src/main/java/com/shopifyr/backend/service/CartService.java:142 | deleting one line lowers the total by that line's subtotal |
| CartService.FindLine | backend/src/main/java/com/shopifyr/backend/service/CartService.java:71-72 | `findByCartIdAndProductId`: the position of the cart's line for the product, or -1 exactly when the cart has none |
| CartService.FindItem | backend/src/main/java/com/shopifyr/backend/service/CartService.java:110-111 | the position of the cart's line with the item id, or -1 exactly when the cart has none |
| CartService.AddItemToCart | backend/src/main/java/com/shopifyr/backend/service/CartService.java:45-92 | `addItemToCart` fails exactly when a check fails, with that check's error, in source order: unknown user, unknown product, inactive product, no inventory record, null stock, stock below the quantity, stock below the raised quantity. On failure nothing changes. On success the store becomes `AfterAdd`, the response is the user's stored cart, and the total grows by the line's unit price times the quantity |
| CartService.StoreLine | backend/src/main/java/com/shopifyr/backend/service/CartService.java:65-90 | the user's cart, found or created, gains the product's line or has it raised; the store becomes `AfterAdd`, and the returned cart is the one stored for the user |
| CartService.AfterAddAppends | backend/src/main/java/com/shopifyr/backend/service/CartService.java:81-89 | when the product is new to the cart, the success state is the found or created cart with one line appended under the next id, at the product's price |
| CartService.AfterAddTotal | backend/src/main/java/com/shopifyr/backend/service/CartService.java:74-91 | after a successful add the user has a cart, and its total is the old total plus the line's unit price times the quantity: the existing line's price, or the product's current price for a new line |
| CartService.RaiseLine | backend/src/main/java/com/shopifyr/backend/service/CartService.java:74-80 | an existing line's quantity becomes old plus requested, and no line is added; the cart is saved and nothing else changes |
| CartService.AppendLine | backend/src/main/java/com/shopifyr/backend/service/CartService.java:81-89 | a new line with a fresh id, the requested quantity and the given price is appended; the cart is saved and the id generator advances once |
| CartService.FindOrCreateCart | backend/src/main/java/com/shopifyr/backend/service/CartService.java:65-69 | the user's cart when there is one, with nothing changed; otherwise a new empty cart under the next id |
| CartService.GetCart | backend/src/main/java/com/shopifyr/backend/service/CartService.java:94-103 | `getCart` returns the existing cart unchanged; a known user without a cart gets a new empty, stored cart with total 0; an unknown user without a cart fails with "User not found" and nothing changes |
| CartService.UpdateCartItem | backend/src/main/java/com/shopifyr/backend/service/CartService.java:105-128 | `updateCartItem` fails, changing nothing, on a missing cart, an unknown item, an item of another user's cart, no inventory record, null stock or stock below the quantity; otherwise it sets exactly that line's quantity, every other line stays, and the total changes by unit price times the difference |
| CartService.RemoveCartItem | backend/src/main/java/com/shopifyr/backend/service/CartService.java:130-144 | `removeCartItem` fails, changing nothing, unless the user's cart exists and holds the item; otherwise it deletes exactly that line, and the total drops by its subtotal |
| CartService.DeleteLine | backend/src/main/java/com/shopifyr/backend/service/CartService.java:142-143 | deleting the k-th line keeps the other lines in order; the response is the stored cart, and its total drops by that line's subtotal |
| CartService.RemoveKeepsCartOk | backend/src/main/java/com/shopifyr/backend/service/CartService.java:142 | deleting a line keeps the cart's lines distinct and their ids generated |
| CartService.SetQuantityKeepsCartOk | backend/src/main/java/com/shopifyr/backend/service/CartService.java:79-80 | changing a line's quantity keeps the cart's lines distinct |
| CartService.AppendKeepsCartOk | backend/src/main/java/com/shopifyr/backend/service/CartService.java:82-89 | appending a line for a product the cart lacks, under a fresh id, keeps the cart's lines distinct |
| CartService.ClearCart | backend/src/main/java/com/shopifyr/backend/service/CartService.java:146-152 | `clearCart` fails with "Cart not found", changing nothing, when the user has no cart; otherwise the cart keeps its id and has no lines |
| OrderService.LineRefusal | backend/src/main/java/com/shopifyr/backend/service/OrderService.java:62-67 | the loop throws for a line exactly when its product has no inventory record, a null stock, or stock below the line's quantity |
| OrderService.ReserveCovered | backend/src/main/java/com/shopifyr/backend/service/OrderService.java:61-71 | when the original stock covers every line, the loop succeeds; each record's stock is then reduced by its product's line quantity, and no record is added or removed |
| OrderService.CoveredStep | backend/src/main/java/com/shopifyr/backend/service/OrderService.java:65-71 | one more covered line, for a product with no earlier line, decrements exactly that product's stock |
| OrderService.ReserveIsExpected | backend/src/main/java/com/shopifyr/backend/service/OrderService.java:61-71 | with distinct covered lines the loop leaves exactly the expected inventory |
| OrderService.ReserveUncovered | backend/src/main/java/com/shopifyr/backend/service/OrderService.java:62-67 | when some line is not covered by the original stock, the loop throws |
| OrderService.ReserveSpec | backend/src/main/java/com/shopifyr/backend/service/OrderService.java:61-71 | with one line per product: the loop succeeds exactly when the original stock covers every line, and then each product's stock drops by exactly its line's quantity; products without a line keep theirs |
| OrderService.ExpectedKeepsInventoryOk | backend/src/main/java/com/shopifyr/backend/service/OrderService.java:65-70 | reserving covered lines never makes stock negative |
| OrderService.ReservePrefixErr | backend/src/main/java/com/shopifyr/backend/service/OrderService.java:61-67 | once a line has thrown, the whole loop throws that exception |
| OrderService.ToResponse | backend/src/main/java/com/shopifyr/backend/service/OrderService.java:111-131 | one response line per order line, in order, with subtotal = unit price times quantity; the stored total and status are kept |
| OrderService.PlacedTotalMatchesLines | backend/src/main/java/com/shopifyr/backend/service/OrderService.java:82-85 | a placed order's total equals the sum of the subtotals its response lists |
| OrderService.ReserveLines | backend/src/main/java/com/shopifyr/backend/service/OrderService.java:61-83 | the loop, on a copy of the stock, gives the result of `Reserve` exactly; on success it also gives one order line per cart line (same product, quantity, unit price) and the cart total |
| OrderService.ReserveOne | backend/src/main/java/com/shopifyr/backend/service/OrderService.java:62-71 | the loop body throws for an uncovered line and otherwise decrements that product's stock by the line's quantity |
| OrderService.PlaceOrder | backend/src/main/java/com/shopifyr/backend/service/OrderService.java:42-93 | `placeOrder` fails exactly on an unknown user, no cart, an empty cart, or the first uncovered line, with that error; on failure it leaves inventory, orders and cart unchanged. On success: a new PENDING order with one line per cart line and the cart total; each product's stock drops by its line's quantity; the cart is emptied |
| OrderService.CommitOrder | backend/src/main/java/com/shopifyr/backend/service/OrderService.java:85-90 | the order is saved under a fresh id, the reserved stock is written back, and the cart is emptied |
| OrderService.GetOrderById | backend/src/main/java/com/shopifyr/backend/service/OrderService.java:100-109 | `getOrderById` succeeds exactly when the order exists and belongs to the user; otherwise "Order not found" or "Order does not belong to user" |
| OrderService.InsertByDate | backend/src/main/java/com/shopifyr/backend/repository/OrderRepository.java:12 | inserting into a newest-first list keeps it newest first and adds exactly that id |
| OrderService.NewestFirstCons | backend/src/main/java/com/shopifyr/backend/repository/OrderRepository.java:12 | an order at least as new as the head of a newest-first list can go in front of it |
| OrderService.FindByUserIdOrderByCreatedAtDesc | backend/src/main/java/com/shopifyr/backend/repository/OrderRepository.java:12 | each of the user's orders exactly once, newest first |
| OrderService.GetUserOrders | backend/src/main/java/com/shopifyr/backend/service/OrderService.java:95-98 | `getUserOrders`: the responses of exactly the user's orders, newest first |
| InventoryService.GetInventoryByProductId | backend/src/main/java/com/shopifyr/backend/service/InventoryService.java:36-39 | `getInventoryByProductId` returns the product's record exactly when it has one; otherwise "Inventory not found for product" |
| InventoryService.UpsertThenGet | backend/src/main/java/com/shopifyr/backend/service/InventoryService.java:29-33 | after an upsert the product's record holds the requested quantity, and keeps its id when it existed; every other product's record reads back as before |
| InventoryService.UpsertIdempotent | backend/src/main/java/com/shopifyr/backend/service/InventoryService.java:29-33 | a second upsert with the same quantity changes nothing more |
| InventoryService.UpdateInventory | backend/src/main/java/com/shopifyr/backend/service/InventoryService.java:24-34 | `updateInventory` fails with "Product not found", changing nothing, exactly for an unknown product; otherwise the product's record (found, or created once under a fresh id) holds the requested quantity and nothing else changes |
| PaymentService.FindByOrderId | backend/src/main/java/com/shopifyr/backend/service/PaymentService.java:47-48 | `findByOrderId`: the order's single payment; "Payment not found" exactly when the order has none; a non-unique-result error when it has more than one |
| PaymentService.ProviderOrDefault | backend/src/main/java/com/shopifyr/backend/service/PaymentService.java:39 | a null provider becomes "STRIPE"; any other provider is kept |
| PaymentService.NewPayment | backend/src/main/java/com/shopifyr/backend/service/PaymentService.java:35-40 | a new payment carries the order's total, status PENDING, the provider or its default, and no provider payment id |
| PaymentService.InitiatePayment | backend/src/main/java/com/shopifyr/backend/service/PaymentService.java:26-43 | `initiatePayment` fails, changing nothing, on an unknown order or one that is not PENDING; otherwise it stores one new PENDING payment for the order's total under a fresh id |
| PaymentService.ConfirmPayment | backend/src/main/java/com/shopifyr/backend/service/PaymentService.java:45-60 | `confirmPayment` succeeds exactly when the order has exactly one payment. When it fails, nothing changes and the error is "Payment not found" (exactly when there is no payment) or the non-unique-result error. Otherwise the payment becomes SUCCESS with the given provider payment id, the order becomes PAID, and nothing else changes |
| PaymentService.FailPayment | backend/src/main/java/com/shopifyr/backend/service/PaymentService.java:62-69 | `failPayment` succeeds exactly when the order has exactly one payment. When it fails, nothing changes and the error is "Payment not found" (exactly when there is no payment) or the non-unique-result error; otherwise that payment becomes FAILED and the order keeps its status |
| PaymentService.FirstPaymentIsFound | backend/src/main/java/com/shopifyr/backend/service/PaymentService.java:42-48 | after the first `initiatePayment` of an order, that payment is the order's only one, which is exactly the case where confirm and fail succeed |
| PaymentService.SecondPaymentMakesLookupAmbiguous | backend/src/main/java/com/shopifyr/backend/service/PaymentService.java:27-42 | a second `initiatePayment` for a still-PENDING order leaves two payments for it, so later lookups by order are ambiguous |
| ReviewService.AnyLineForIff | backend/src/main/java/com/shopifyr/backend/service/ReviewService.java:102-105 | the `flatMap`/`anyMatch` stream is true exactly when some listed order has a line for the product |
| ReviewService.HasUserPurchasedProduct | backend/src/main/java/com/shopifyr/backend/service/ReviewService.java:100-106 | `hasUserPurchasedProduct` is true exactly when some order of the user has a line for the product |
| ReviewService.CreateReview | backend/src/main/java/com/shopifyr/backend/service/ReviewService.java:37-63 | `createReview` fails, changing nothing, exactly on an unknown user, an unknown product, a product the user never ordered, or an earlier review by the user of the product, in that order. Otherwise it stores one review with exactly the given rating and comment under a fresh id |
| ReviewService.SaveNewReview | backend/src/main/java/com/shopifyr/backend/service/ReviewService.java:62 | `reviewRepository.save` of a new review stores it under the next id and changes nothing else |
| ReviewService.StoreNewReview | backend/src/main/java/com/shopifyr/backend/service/ReviewService.java:51-62 | a first review by a user of a product keeps the database consistent: one review per user and product |
| ReviewService.UpdateReview | backend/src/main/java/com/shopifyr/backend/service/ReviewService.java:65-78 | `updateReview` fails, changing nothing, on an unknown review or a review by another user; otherwise it replaces only the rating and comment of that review |
| ReviewService.DeleteReview | backend/src/main/java/com/shopifyr/backend/service/ReviewService.java:80-90 | `deleteReview` fails, changing nothing, on an unknown review or a review by another user; otherwise it removes exactly that review |
| ReviewService.StoreReview | backend/src/main/java/com/shopifyr/backend/service/ReviewService.java:74-77 | rewriting a review's rating and comment keeps the database consistent |
| ReviewService.CreatedReviewIsTheOnlyOne | backend/src/main/java/com/shopifyr/backend/service/ReviewService.java:51-62 | after a successful create the user has exactly one review of the product, the new one |
| WishlistService.AddToWishlist | backend/src/main/java/com/shopifyr/backend/service/WishlistService.java:38-57 | `addToWishlist`: an unknown username fails; an existing entry for the user and product returns with nothing changed; otherwise an unknown product fails, changing nothing, and a known one gets exactly one new entry |
| WishlistService.Without | backend/src/main/java/com/shopifyr/backend/service/WishlistService.java:63 | `deleteByUserIdAndProductId` leaves no entry for the pair and keeps every other entry |
| WishlistService.RemoveFromWishlist | backend/src/main/java/com/shopifyr/backend/service/WishlistService.java:59-64 | `removeFromWishlist` fails, changing nothing, exactly for an unknown username; otherwise the user's entry for the product is gone (removing an absent one is not an error) and nothing else changes |
| WishlistService.AddLeavesOneEntry | backend/src/main/java/com/shopifyr/backend/service/WishlistService.java:44-56 | after a successful add there is exactly one entry for the user and product |
| WishlistService.RemoveUndoesAdd | backend/src/main/java/com/shopifyr/backend/service/WishlistService.java:44-63 | removing right after adding a new entry restores the wishlist |
| WishlistService.ToResponse | backend/src/main/java/com/shopifyr/backend/service/WishlistService.java:66-87 | the entry id and its product's response, with null brand id and name for a product without a brand |
| WishlistService.GetWishlist | backend/src/main/java/com/shopifyr/backend/service/WishlistService.java:29-36 | `getWishlist` fails for an unknown username; otherwise one response per entry of that user and of no other user |
| ProductService.ToResponse | backend/src/main/java/com/shopifyr/backend/service/ProductService.java:125-140 | the response carries the product's own fields and its category name; no brand gives a null brand id and a null brand name, and a brand gives its name |
| ProductService.Created | backend/src/main/java/com/shopifyr/backend/service/ProductService.java:48-56 | a created product has the request's fields, and `isActive` is true when the request omits it |
| ProductService.Updated | backend/src/main/java/com/shopifyr/backend/service/ProductService.java:77-85 | an update overwrites name, description, price, image, category and brand (a null brand id clears the brand), and a null `isActive` keeps the old flag |
| ProductService.UpdateIdempotent | backend/src/main/java/com/shopifyr/backend/service/ProductService.java:77-85 | applying the same update twice is the same as applying it once |
| ProductService.UpdateWithFlagIsCreate | backend/src/main/java/com/shopifyr/backend/service/ProductService.java:48-56 | an update that gives `isActive` leaves exactly the product a create from the same request would build |
| ProductService.CreateProduct | backend/src/main/java/com/shopifyr/backend/service/ProductService.java:36-60 | `createProduct` fails, changing nothing, exactly on an unknown category, or an unknown brand when a brand id is given; otherwise it stores the created product under a fresh id and returns its response |
| ProductService.UpdateProduct | backend/src/main/java/com/shopifyr/backend/service/ProductService.java:62-89 | `updateProduct` fails, changing nothing, on an unknown product, category or brand, in that order; otherwise only that product changes, to `Updated` |
| ProductService.GetProductById | backend/src/main/java/com/shopifyr/backend/service/ProductService.java:91-96 | `getProductById` returns the product's response exactly when it exists; otherwise "Product not found" |
| ProductService.DeleteProduct | backend/src/main/java/com/shopifyr/backend/service/ProductService.java:116-123 | `deleteProduct` fails, changing nothing, exactly for an unknown id; otherwise only that product row is removed |
| ProductService.UpdateThenGet | backend/src/main/java/com/shopifyr/backend/service/ProductService.java:87-96 | reading a product back after an update gives the updated fields |
| CategoryService.StoreKeepsNamesUnique | backend/src/main/java/com/shopifyr/backend/service/CategoryService.java:26-28 | storing a category whose name no other category has keeps category names pairwise distinct |
| CategoryService.CreateCategory | backend/src/main/java/com/shopifyr/backend/service/CategoryService.java:23-37 | `createCategory` fails with "Category with this name already exists", changing nothing, exactly when the name is taken; otherwise it stores the category under a fresh id, and names stay distinct |
| CategoryService.UpdateCategory | backend/src/main/java/com/shopifyr/backend/service/CategoryService.java:39-54 | `updateCategory` fails, changing nothing, on an unknown id or on another category's name; otherwise it overwrites name, description and image URL of that category only |
| CategoryService.GetCategoryById | backend/src/main/java/com/shopifyr/backend/service/CategoryService.java:56-59 | `getCategoryById` returns the category exactly when the id exists; otherwise "Category not found" |
| CategoryService.DeleteCategory | backend/src/main/java/com/shopifyr/backend/service/CategoryService.java:66-73 | `deleteCategory` fails, changing nothing, exactly for an unknown id; otherwise only that row is removed |
| CategoryService.KeepingOwnNameIsAllowed | backend/src/main/java/com/shopifyr/backend/service/CategoryService.java:45-47 | keeping a category's own name always passes the name check |
| CategoryService.UpdateRefusedIffOtherHasName | backend/src/main/java/com/shopifyr/backend/service/CategoryService.java:45-47 | for a known category, the update fails exactly when a different category holds the requested name |
| BrandService.StoreKeepsNamesUnique | backend/src/main/java/com/shopifyr/backend/service/BrandService.java:26-28 | storing a brand whose name no other brand has keeps brand names pairwise distinct |
| BrandService.CreateBrand | backend/src/main/java/com/shopifyr/backend/service/BrandService.java:23-37 | `createBrand` fails with "Brand with this name already exists", changing nothing, exactly when the name is taken; otherwise it stores the brand under a fresh id, and names stay distinct |
| BrandService.UpdateBrand | backend/src/main/java/com/shopifyr/backend/service/BrandService.java:39-54 | `updateBrand` fails, changing nothing, on an unknown id or on another brand's name; otherwise it overwrites name, description and logo URL of that brand only |
| BrandService.GetBrandById | backend/src/main/java/com/shopifyr/backend/service/BrandService.java:56-59 | `getBrandById` returns the brand exactly when the id exists; otherwise "Brand not found" |
| BrandService.DeleteBrand | backend/src/main/java/com/shopifyr/backend/service/BrandService.java:66-73 | `deleteBrand` fails, changing nothing, exactly for an unknown id; otherwise only that row is removed |
| BrandService.KeepingOwnNameIsAllowed | backend/src/main/java/com/shopifyr/backend/service/BrandService.java:45-47 | keeping a brand's own name always passes the name check |
| BrandService.UpdateRefusedIffOtherHasName | backend/src/main/java/com/shopifyr/backend/service/BrandService.java:45-47 | for a known brand, the update fails exactly when a different brand holds the requested name |
| AuthService.StoreKeepsUsersUnique | backend/src/main/java/com/shopifyr/backend/service/AuthService.java:34-39 | a user whose email and username nobody has keeps usernames and emails unique |
| AuthService.StoreUser | backend/src/main/java/com/shopifyr/backend/service/AuthService.java:34-61 | storing such a user under a fresh id keeps the whole database consistent |
| AuthService.Register | backend/src/main/java/com/shopifyr/backend/service/AuthService.java:32-62 | `register` fails exactly when the email, then the username, is taken, with that error and no change; otherwise exactly one new user is stored, with the encoder's output as password, the request's profile and the customer role as its only role, and nothing but the users, the roles (at most the new customer role) and the id generator changes |
| AuthService.CustomerRoleId | backend/src/main/java/com/shopifyr/backend/service/AuthService.java:41-43 | the returned id names ROLE_CUSTOMER; an existing role is reused with no change, otherwise exactly one role is created |
| AuthService.FindForLogin | backend/src/main/java/com/shopifyr/backend/service/AuthService.java:65-67 | the lookup finds nobody exactly when neither an email nor a username equals the identifier. When some user's email equals the identifier, that user is found. Otherwise the user found is one whose username equals it |
| AuthService.Login | backend/src/main/java/com/shopifyr/backend/service/AuthService.java:64-75 | `login` succeeds exactly when a user matches and the password matcher accepts the raw password against the stored one, returning the token for that user's username with type "Bearer"; every failure is "Invalid credentials" |
| AuthService.LoginPrefersEmail | backend/src/main/java/com/shopifyr/backend/service/AuthService.java:65-67 | a user whose email is the identifier wins over another whose username is the same string |
| AuthService.RegisteredUserCanLogIn | backend/src/main/java/com/shopifyr/backend/service/AuthService.java:45-75 | after registering, logging in with the new email and the raw password returns the token for the new username, given a matcher that accepts the encoder's output |
| UserController.EmptyRequestKeepsProfile | backend/src/main/java/com/shopifyr/backend/controller/UserController.java:43-60 | a request with every field null leaves the profile as it was |
| UserController.MergeIdempotent | backend/src/main/java/com/shopifyr/backend/controller/UserController.java:43-60 | applying the same profile request twice is the same as applying it once |
| UserController.FullRequestReplaces | backend/src/main/java/com/shopifyr/backend/controller/UserController.java:43-60 | a request that sets all nine fields replaces the profile with the request |
| UserController.GetCurrentUser | backend/src/main/java/com/shopifyr/backend/controller/UserController.java:23-32 | `getCurrentUser` succeeds exactly when some stored user has the authenticated username, and returns that user; otherwise "User not found" |
| UserController.StoreProfile | backend/src/main/java/com/shopifyr/backend/controller/UserController.java:62 | changing only a user's profile keeps the database consistent |
| UserController.UpdateProfile | backend/src/main/java/com/shopifyr/backend/controller/UserController.java:34-64 | `updateProfile` fails with "User not found", changing nothing, exactly when no user has the authenticated name; otherwise only that user's profile changes, to the merge of the stored profile and the request, and the saved user is returned |
| UserController.ApplyRequest | backend/src/main/java/com/shopifyr/backend/controller/UserController.java:43-60 | the nine conditional setters leave exactly the field-by-field merge: each non-null request field replaces the stored one |
| AnalyticsService.GetLowStockItems | backend/src/main/java/com/shopifyr/backend/service/AnalyticsService.java:131-139 | the low-stock list holds exactly the records with a non-null quantity at most the threshold, each with its product's id and name and that quantity, and is no longer than the inventory |
| AnalyticsService.LowStockKeepsOrder | backend/src/main/java/com/shopifyr/backend/service/AnalyticsService.java:132-138 | the filter distributes over concatenation, so the records keep the repository's order |
| AnalyticsService.CategoryEntries | backend/src/main/java/com/shopifyr/backend/service/AnalyticsService.java:78-88 | mapping each row to its product's category fails with NoSuchElement exactly when some row names a missing product; otherwise each row becomes its category id with the row's revenue |
| AnalyticsService.CategorySums | backend/src/main/java/com/shopifyr/backend/service/AnalyticsService.java:77-97 | the per-category sums of those entries are the revenues of the rows whose product is in that category, and the total revenue is kept |
| AnalyticsService.Named | backend/src/main/java/com/shopifyr/backend/service/AnalyticsService.java:83-87 | each merged group keeps its category id and revenue and gets its category's name |
| AnalyticsService.NamedTotal | backend/src/main/java/com/shopifyr/backend/service/AnalyticsService.java:99 | naming the groups keeps their total revenue |
| AnalyticsService.RevenuePerCategorySpec | backend/src/main/java/com/shopifyr/backend/service/AnalyticsService.java:72-100 | `getRevenuePerCategory` fails exactly when a row's product is missing; otherwise it lists each category some row's product belongs to exactly once and no other, each with that category's summed revenue, and the revenues add up to the revenue of all rows |
| AnalyticsService.Limited | backend/src/main/java/com/shopifyr/backend/service/AnalyticsService.java:105-106 | `limit(n)` keeps the first min(n, length) rows |
| AnalyticsService.NameProducts | backend/src/main/java/com/shopifyr/backend/service/AnalyticsService.java:107-113 | naming the kept rows fails with NoSuchElement exactly when a kept row's product is missing; otherwise each row keeps its product id, quantity and revenue and gets the product's name |
| AnalyticsService.GetTopProducts | backend/src/main/java/com/shopifyr/backend/service/AnalyticsService.java:102-115 | a negative limit fails as `Stream.limit` does; otherwise the result is the naming of the first `limit` rows |
| AnalyticsService.TopProductsTruncates | backend/src/main/java/com/shopifyr/backend/service/AnalyticsService.java:102-115 | a non-negative limit yields the first min(limit, rows) rows in repository order with id, quantity, revenue and name, and fails only when one of those names a missing product |
| AnalyticsService.TopProductsByQuantity | backend/src/main/java/com/shopifyr/backend/service/AnalyticsService.java:105-114 | fed with `findTopProducts`, the top products come out by quantity sold, largest first |
| AnalyticsService.NameCustomers | backend/src/main/java/com/shopifyr/backend/service/AnalyticsService.java:122-127 | naming the kept rows fails with NoSuchElement exactly when a kept row's user is missing; otherwise each row keeps its user id and revenue and gets the username |
| AnalyticsService.GetTopCustomers | backend/src/main/java/com/shopifyr/backend/service/AnalyticsService.java:117-129 | a negative limit fails as `Stream.limit` does; otherwise the result is the naming of the first `limit` rows of `findTopCustomers` |
| AnalyticsService.TopCustomersTruncates | backend/src/main/java/com/shopifyr/backend/service/AnalyticsService.java:117-129 | a non-negative limit yields the first min(limit, rows) rows in repository order with user id, revenue and username, and fails only when one of those names a missing user |
| OrderItemAnalyticsRepository.InRange | backend/src/main/java/com/shopifyr/backend/repository/OrderItemAnalyticsRepository.java:14-21 | the `BETWEEN` filter keeps exactly the items whose order was created within the range, both ends included |
| OrderItemAnalyticsRepository.InRangeAppend | backend/src/main/java/com/shopifyr/backend/repository/OrderItemAnalyticsRepository.java:14-21 | the filter distributes over concatenation, so every in-range item is kept with its multiplicity and in order |
| OrderItemAnalyticsRepository.OutOfRangeIgnored | backend/src/main/java/com/shopifyr/backend/repository/OrderItemAnalyticsRepository.java:14-21 | an item outside the range changes neither query's input |
| OrderItemAnalyticsRepository.KeyIndex | backend/src/main/java/com/shopifyr/backend/repository/OrderItemAnalyticsRepository.java:15-22 | the group lookup finds a position holding the key, or -1 exactly when no group has it |
| OrderItemAnalyticsRepository.AbsentKeySumsToZero | backend/src/main/java/com/shopifyr/backend/repository/OrderItemAnalyticsRepository.java:12-19 | a key no entry has sums to zero in both columns |
| OrderItemAnalyticsRepository.AddEntryKeys | backend/src/main/java/com/shopifyr/backend/repository/OrderItemAnalyticsRepository.java:15-22 | adding an entry to the groups keeps the keys distinct and adds exactly its key |
| OrderItemAnalyticsRepository.GroupSumKeys | backend/src/main/java/com/shopifyr/backend/repository/OrderItemAnalyticsRepository.java:15-22 | `GROUP BY` gives distinct keys, exactly the keys that occur |
| OrderItemAnalyticsRepository.GroupSumSums | backend/src/main/java/com/shopifyr/backend/repository/OrderItemAnalyticsRepository.java:12-19 | each group holds the sum of its key's quantities and revenues |
| OrderItemAnalyticsRepository.GroupSumSpec | backend/src/main/java/com/shopifyr/backend/repository/OrderItemAnalyticsRepository.java:12-22 | the grouping's three promises together: distinct keys, exactly the occurring keys, the sums per key |
| OrderItemAnalyticsRepository.GroupSumTotal | backend/src/main/java/com/shopifyr/backend/repository/OrderItemAnalyticsRepository.java:12-19 | the groups' revenues add up to the revenue of all items |
| OrderItemAnalyticsRepository.TotalRevenueUpdate | backend/src/main/java/com/shopifyr/backend/repository/OrderItemAnalyticsRepository.java:12-19 | merging into one group changes the total by the difference of the two revenues |
| OrderItemAnalyticsRepository.InsertDesc | backend/src/main/java/com/shopifyr/backend/repository/OrderItemAnalyticsRepository.java:16-23 | inserting into a descending list keeps it descending and adds exactly that entry |
| OrderItemAnalyticsRepository.SortedDescCons | backend/src/main/java/com/shopifyr/backend/repository/OrderItemAnalyticsRepository.java:16-23 | an entry at least as heavy as the head can go in front of a descending list |
| OrderItemAnalyticsRepository.SortDesc | backend/src/main/java/com/shopifyr/backend/repository/OrderItemAnalyticsRepository.java:16-23 | `ORDER BY ... DESC` yields a list in descending order that is a permutation of the groups |
| OrderItemAnalyticsRepository.SortKeepsKeysDistinct | backend/src/main/java/com/shopifyr/backend/repository/OrderItemAnalyticsRepository.java:16-23 | sorting keeps distinct keys distinct |
| OrderItemAnalyticsRepository.InsertKeepsKeysDistinct | backend/src/main/java/com/shopifyr/backend/repository/OrderItemAnalyticsRepository.java:16-23 | inserting an entry with a new key keeps the keys distinct |
| OrderItemAnalyticsRepository.KeysDistinctCons | backend/src/main/java/com/shopifyr/backend/repository/OrderItemAnalyticsRepository.java:15-22 | an entry whose key no later entry has can go in front of a list with distinct keys |
| OrderItemAnalyticsRepository.ProductEntries | backend/src/main/java/com/shopifyr/backend/repository/OrderItemAnalyticsRepository.java:12 | each item contributes its product id, its quantity and unit price times quantity |
| OrderItemAnalyticsRepository.CustomerEntries | backend/src/main/java/com/shopifyr/backend/repository/OrderItemAnalyticsRepository.java:19 | each item contributes its order's user id, its quantity and unit price times quantity |
| OrderItemAnalyticsRepository.SortedGroupSum | backend/src/main/java/com/shopifyr/backend/repository/OrderItemAnalyticsRepository.java:12-23 | grouping and then sorting yields distinct keys, exactly the occurring keys, each key's sums, in descending order of the chosen sum |
| OrderItemAnalyticsRepository.TopProductsSpec | backend/src/main/java/com/shopifyr/backend/repository/OrderItemAnalyticsRepository.java:12-17 | `findTopProducts`: one row per product sold in the range, with its summed quantity and revenue, most units first |
| OrderItemAnalyticsRepository.TopCustomersSpec | backend/src/main/java/com/shopifyr/backend/repository/OrderItemAnalyticsRepository.java:19-24 | `findTopCustomers`: one row per buying user in the range, with summed revenue, highest revenue first |
| ProductRepository.FindWithFilters | backend/src/main/java/com/shopifyr/backend/repository/ProductRepository.java:30-43 | `findWithFilters` returns exactly the products that satisfy every non-null parameter (category, brand, minimum and maximum price inclusive, active flag), and no more rows than the table |
| ProductRepository.FiltersKeepOrder | backend/src/main/java/com/shopifyr/backend/repository/ProductRepository.java:30-35 | the query distributes over concatenation, so it keeps the table order |
| ProductRepository.NoFiltersReturnsAll | backend/src/main/java/com/shopifyr/backend/repository/ProductRepository.java:30-35 | with every parameter null every product is returned, in order |
| ProductRepository.MoreFiltersShrink | backend/src/main/java/com/shopifyr/backend/repository/ProductRepository.java:30-35 | setting more parameters filters the earlier result further |
| ProductRepository.EmptyPriceRange | backend/src/main/java/com/shopifyr/backend/repository/ProductRepository.java:33-34 | a minimum price above the maximum price matches nothing |
| ProductRepository.SearchActiveProductsByQuery | backend/src/main/java/com/shopifyr/backend/repository/ProductRepository.java:23-28 | the search returns exactly the active products whose lower-cased name or description contains the lower-cased query |
| ProductRepository.SearchOnlyActive | backend/src/main/java/com/shopifyr/backend/repository/ProductRepository.java:24 | an inactive product is never found, and the empty query finds every active product |
| ProductRepository.SearchIgnoresCase | backend/src/main/java/com/shopifyr/backend/repository/ProductRepository.java:25-26 | lower-casing the query does not change the result |
| ProductRepository.SearchSameMatches | backend/src/main/java/com/shopifyr/backend/repository/ProductRepository.java:25-26 | two queries equal up to letter case give the same result |
| CorsResponseFilter.KeptFromPieces | backend/src/main/java/com/shopifyr/backend/config/CorsResponseFilter.java:38-41 | every kept entry is the non-empty trim of some comma-separated piece |
| CorsResponseFilter.KeptStep | backend/src/main/java/com/shopifyr/backend/config/CorsResponseFilter.java:39-40 | each further piece adds its trim exactly when that is not empty |
| CorsResponseFilter.BuildOrigins | backend/src/main/java/com/shopifyr/backend/config/CorsResponseFilter.java:30-44 | `buildOrigins` returns the three fixed origins followed by the kept entries of the variable, and only the fixed ones when it is missing or blank |
| CorsResponseFilter.AppendEntries | backend/src/main/java/com/shopifyr/backend/config/CorsResponseFilter.java:38-41 | the loop appends exactly the trimmed non-empty pieces, in order |
| CorsResponseFilter.BlankKeepsDefaults | backend/src/main/java/com/shopifyr/backend/config/CorsResponseFilter.java:36-37 | a missing or blank variable leaves exactly the three defaults |
| CorsResponseFilter.AddedOriginsAreTrimmed | backend/src/main/java/com/shopifyr/backend/config/CorsResponseFilter.java:38-41 | every added origin is non-empty, has no removable character at either end, and holds no comma |
| CorsResponseFilter.KeptNoop | backend/src/main/java/com/shopifyr/backend/config/CorsResponseFilter.java:39-40 | trimming already-trimmed entries keeps them all, unchanged |
| CorsResponseFilter.JoinNotBlank | backend/src/main/java/com/shopifyr/backend/config/CorsResponseFilter.java:37 | a comma-joined list whose first entry is not blank is not blank |
| CorsResponseFilter.OriginsRoundTrip | backend/src/main/java/com/shopifyr/backend/config/CorsResponseFilter.java:30-44 | writing trimmed, comma-free origins into the variable, comma-separated, adds exactly those origins after the defaults |
| CorsResponseFilter.JoinedOriginsSplitBack | backend/src/main/java/com/shopifyr/backend/config/CorsResponseFilter.java:38 | splitting the joined value at commas gives the origins back |
| CorsResponseFilter.DoFilterInternal | backend/src/main/java/com/shopifyr/backend/config/CorsResponseFilter.java:46-64 | the allow-origin header is set to the request's origin only when that is in the list; the other four headers are always set; an OPTIONS request in any letter case gets status 200 and the chain is not called, any other request calls the chain exactly once with the status untouched |
| CorsResponseFilter.CorsHeadersSpec | backend/src/main/java/com/shopifyr/backend/config/CorsResponseFilter.java:49-56 | on a fresh response the allow-origin header is present exactly when the origin is allowed, and then echoes it |
| CorsResponseFilter.OptionsAnyCase | backend/src/main/java/com/shopifyr/backend/config/CorsResponseFilter.java:58 | the preflight test ignores letter case |
| SecurityConfig.Decide | backend/src/main/java/com/shopifyr/backend/config/SecurityConfig.java:43-51 | a request gets the access of a rule whose matcher accepts it, and none exactly when no rule matches |
| SecurityConfig.DecideFirst | backend/src/main/java/com/shopifyr/backend/config/SecurityConfig.java:43-51 | the rule that decides is the first one that matches, in declaration order |
| SecurityConfig.RulesSpelledOut | backend/src/main/java/com/shopifyr/backend/config/SecurityConfig.java:44-51 | what each of the eight matchers accepts, path pattern by path pattern and HTTP method by HTTP method |
| SecurityConfig.DecideSpec | backend/src/main/java/com/shopifyr/backend/config/SecurityConfig.java:43-51 | a request whose path starts with `/` is let through without authentication exactly when it is an auth or API-docs path, a GET on products, categories, brands or product reviews, or any OPTIONS request; every other request needs an authenticated user |
| SecurityConfig.CorsConfigurationSource | backend/src/main/java/com/shopifyr/backend/config/SecurityConfig.java:74-98 | the CORS configuration allows the same origin list as the response filter, the five methods, the three headers, credentials and a max age of 3600 |
| RateLimitingFilter.Filter.constructor | backend/src/main/java/com/shopifyr/backend/config/RateLimitingFilter.java:23 | a new filter has no buckets |
| RateLimitingFilter.Filter.ResolveBucket | backend/src/main/java/com/shopifyr/backend/config/RateLimitingFilter.java:25-31 | `resolveBucket` returns the key's bucket, created full with 60 tokens the first time the key is seen; no other bucket changes |
| RateLimitingFilter.Filter.DoFilterInternal | backend/src/main/java/com/shopifyr/backend/config/RateLimitingFilter.java:33-61 | a path outside `/api/auth/login` and `/api/products` passes with no bucket touched; a limited path passes exactly when its ip-and-path bucket has a token, which it takes, and otherwise gets status 429 and the refusal text without calling the chain |
| RateLimitingFilter.Filter.Refill | backend/src/main/java/com/shopifyr/backend/config/RateLimitingFilter.java:28 | a refill adds tokens to one bucket, never beyond the capacity of 60 |
| RateLimitingFilter.AdmittedUpToTokens | backend/src/main/java/com/shopifyr/backend/config/RateLimitingFilter.java:53-60 | without a refill, n requests on one key admit exactly min(n, tokens left): a fresh key admits at most 60 |
| RateLimitingFilter.AdmitLeavesOtherKeys | backend/src/main/java/com/shopifyr/backend/config/RateLimitingFilter.java:52-55 | a request on one key leaves every other key's bucket as it was |
| RateLimitingFilter.KeyInjective | backend/src/main/java/com/shopifyr/backend/config/RateLimitingFilter.java:52 | two requests share a bucket only when they have the same address and the same path |
| RailwayDataSource.PostProcessEnvironment | backend/src/main/java/com/shopifyr/backend/config/RailwayDataSourceEnvPostProcessor.java:23-68 | nothing is added exactly when `DB_URL` is set and not blank, or `DATABASE_URL` is missing or blank, or its normalized form has neither PostgreSQL scheme; otherwise one property source is added: the url and credentials from the parsed URI, or only `jdbc:` plus the parsed string when the parser fails |
| RailwayDataSource.NormalizeUrl | backend/src/main/java/com/shopifyr/backend/config/RailwayDataSourceEnvPostProcessor.java:33-36 | the url is trimmed and a `postgres://` scheme renamed to `postgresql://` |
| RailwayDataSource.PropertiesFor | backend/src/main/java/com/shopifyr/backend/config/RailwayDataSourceEnvPostProcessor.java:41-67 | the parsed URI gives the url and credentials; a parser failure gives only the url, with the `jdbc:` prefix added once |
| RailwayDataSource.FromUri | backend/src/main/java/com/shopifyr/backend/config/RailwayDataSourceEnvPostProcessor.java:43-59 | the url is `jdbc:postgresql://host:port/database` with port 5432 and database `railway` as defaults, followed by the credentials of the user info |
| RailwayDataSource.PostgresSchemeRenamed | backend/src/main/java/com/shopifyr/backend/config/RailwayDataSourceEnvPostProcessor.java:34-37 | a `postgres://` url is renamed to the `postgresql://` scheme and then accepted |
| RailwayDataSource.ParsedFormIsPostgresql | backend/src/main/java/com/shopifyr/backend/config/RailwayDataSourceEnvPostProcessor.java:37-63 | the string handed to the parser is always in `postgresql://` form, so the fallback url always starts with `jdbc:postgresql://`, and it equals a `jdbc:` input as given |
| RailwayDataSource.DefaultsApply | backend/src/main/java/com/shopifyr/backend/config/RailwayDataSourceEnvPostProcessor.java:44-46 | without a port the url uses 5432, and without a database path the database `railway` |
| RailwayDataSource.PortAndDatabaseKept | backend/src/main/java/com/shopifyr/backend/config/RailwayDataSourceEnvPostProcessor.java:44-48 | a given port and database appear in the url as they are, and the port's digits read back as the port |
| RailwayDataSource.CredentialsSplit | backend/src/main/java/com/shopifyr/backend/config/RailwayDataSourceEnvPostProcessor.java:51-55 | user info `user:password` with a colon-free, non-blank user sets exactly that user name and password |
| RailwayDataSource.CredentialsSpec | backend/src/main/java/com/shopifyr/backend/config/RailwayDataSourceEnvPostProcessor.java:51-59 | a user name is set exactly when the user info is present and not blank, a password only when in addition the first colon is past the first character, the whole user info is the user name otherwise, and the url is never touched |
| FileStorageService.ValidationRefusal | backend/src/main/java/com/shopifyr/backend/service/FileStorageService.java:25-39 | an upload passes exactly when it is non-empty, has a content type starting with `image/` and is at most 5 MiB; an empty file fails with "File is empty" whatever else holds |
| FileStorageService.Extension | backend/src/main/java/com/shopifyr/backend/service/FileStorageService.java:42-46 | the extension is empty exactly when the name has no dot or ends in its last dot; otherwise it is the name's suffix from the last dot, a dot followed by at least one dot-free character |
| FileStorageService.StoreImage | backend/src/main/java/com/shopifyr/backend/service/FileStorageService.java:24-55 | a refused upload fails with the refusal; an accepted one is served at a URL starting with `/uploads/` and the generated name |
| FileStorageService.ExtensionOfDotted | backend/src/main/java/com/shopifyr/backend/service/FileStorageService.java:43-45 | a name ending in a dot and a dot-free, non-empty suffix has that suffix as its extension |
| FileStorageService.NoDotNoExtension | backend/src/main/java/com/shopifyr/backend/service/FileStorageService.java:43-44 | a name without a dot has no extension |
| FileStorageService.SizeBoundary | backend/src/main/java/com/shopifyr/backend/service/FileStorageService.java:36-38 | a file of exactly 5 MiB passes the size check and one byte more is refused |
| FileStorageService.StoredUrl | backend/src/main/java/com/shopifyr/backend/service/FileStorageService.java:41-54 | an accepted upload is served at `/uploads/`, the generated name and the cleaned name's extension; without an original name the default `image` adds no extension |
| ImageMigrationRunner.MigrateUrl | backend/src/main/java/com/shopifyr/backend/config/ImageMigrationRunner.java:32-46 | a url that is absent or does not start with `/images/` is kept; any other is rewritten to one starting with `/assets/images/` |
| ImageMigrationRunner.MigrateIdempotent | backend/src/main/java/com/shopifyr/backend/config/ImageMigrationRunner.java:32-33 | migrating a url twice is migrating it once, and a migrated url never needs migrating again |
| ImageMigrationRunner.EveryOccurrenceRewritten | backend/src/main/java/com/shopifyr/backend/config/ImageMigrationRunner.java:33-46 | `String.replace` rewrites every occurrence of `/images/`, a later one too, not only the leading one |
| ImageMigrationRunner.CountProductsIsSize | backend/src/main/java/com/shopifyr/backend/config/ImageMigrationRunner.java:30-36 | the running count over the ids is the number of products whose url needs rewriting |
| ImageMigrationRunner.CountCategoriesIsSize | backend/src/main/java/com/shopifyr/backend/config/ImageMigrationRunner.java:43-49 | the running count over the ids is the number of categories whose url needs rewriting |
| ImageMigrationRunner.MigrationKeepsConsistent | backend/src/main/java/com/shopifyr/backend/config/ImageMigrationRunner.java:35-48 | changing only image urls keeps every invariant of the database |
| ImageMigrationRunner.MigrateProducts | backend/src/main/java/com/shopifyr/backend/config/ImageMigrationRunner.java:28-39 | the product loop leaves every product with its url migrated and nothing else changed, and counts the rewritten products |
| ImageMigrationRunner.RewriteProducts | backend/src/main/java/com/shopifyr/backend/config/ImageMigrationRunner.java:31-38 | the loop over the product rows yields the migrated rows and the number of rewritten ones |
| ImageMigrationRunner.ProductsLoopDone | backend/src/main/java/com/shopifyr/backend/config/ImageMigrationRunner.java:31-38 | when the loop has passed every id, the copy is the migrated rows and the count their number |
| ImageMigrationRunner.MigrateCategories | backend/src/main/java/com/shopifyr/backend/config/ImageMigrationRunner.java:41-52 | the category loop leaves every category with its url migrated and nothing else changed, and counts the rewritten categories |
| ImageMigrationRunner.RewriteCategories | backend/src/main/java/com/shopifyr/backend/config/ImageMigrationRunner.java:44-51 | the loop over the category rows yields the migrated rows and the number of rewritten ones |
| ImageMigrationRunner.CategoriesLoopDone | backend/src/main/java/com/shopifyr/backend/config/ImageMigrationRunner.java:44-51 | when the loop has passed every id, the copy is the migrated rows and the count their number |
| ImageMigrationRunner.Run | backend/src/main/java/com/shopifyr/backend/config/ImageMigrationRunner.java:23-55 | `run` migrates the urls of all products and all categories, changes nothing else, and returns both counts |
| ImageMigrationRunner.SecondRunChangesNothing | backend/src/main/java/com/shopifyr/backend/config/ImageMigrationRunner.java:23-55 | a second run rewrites nothing and changes nothing |
| AuthContext.Rehydrate | frontend/src/contexts/AuthContext.tsx:27-49 | the mount check ends loading; with a usable stored token (truthy, and neither `"undefined"` nor `"null"`) the session is signed in, the saved user is restored when it is usable and parses, and an unparsable one is removed from storage; without one, token and user are removed from storage |
| AuthContext.LoggedIn | frontend/src/contexts/AuthContext.tsx:51-58 | `login` stores the token and signs in; with user data it also sets and stores the user, otherwise the user and the rest of storage stay as they were |
| AuthContext.LoggedOut | frontend/src/contexts/AuthContext.tsx:60-66 | `logout` removes exactly the token and user keys, clears the user, signs out and navigates to `/login` |
| AuthContext.AuthProvider.constructor | frontend/src/contexts/AuthContext.tsx:22-24 | a new provider has no user, is signed out and is loading |
| AuthContext.AuthProvider.Mount | frontend/src/contexts/AuthContext.tsx:27-49 | the mount effect changes the tab and the provider's state as the mount check says |
| AuthContext.AuthProvider.Login | frontend/src/contexts/AuthContext.tsx:51-58 | `login` changes the tab and the provider's state as described above |
| AuthContext.AuthProvider.Logout | frontend/src/contexts/AuthContext.tsx:60-66 | `logout` changes the tab and the provider's state as described above |
| AuthContext.MountMakesCoherent | frontend/src/contexts/AuthContext.tsx:27-49 | after mounting, the state says signed in exactly when storage holds a usable token |
| AuthContext.LoginKeepsCoherent | frontend/src/contexts/AuthContext.tsx:51-58 | signing in with a usable token keeps that agreement |
| AuthContext.LogoutMakesCoherent | frontend/src/contexts/AuthContext.tsx:60-66 | logging out restores that agreement |
| AuthContext.RehydrateIdempotent | frontend/src/contexts/AuthContext.tsx:27-49 | mounting twice is the same as mounting once |
| AuthContext.LogoutTwice | frontend/src/contexts/AuthContext.tsx:60-66 | a second logout changes neither storage nor state; it only records another navigation to the login page |
| AuthContext.LoginSurvivesReload | frontend/src/contexts/AuthContext.tsx:27-58 | after signing in with user data, a reload comes up signed in with the same user and the same storage, given that the stored text parses back to that user |
| AuthContext.LogoutSurvivesReload | frontend/src/contexts/AuthContext.tsx:27-66 | after logging out, a reload comes up signed out with no user |
| CartContext.CountOf | frontend/src/contexts/CartContext.tsx:17-25 | a failed cart fetch, or a cart without items, gives the count 0; otherwise the count is the sum of the line quantities |
| CartContext.SumAppend | frontend/src/contexts/CartContext.tsx:20 | the summed quantity of two runs of lines is the sum of their sums |
| CartContext.SumNonNegative | frontend/src/contexts/CartContext.tsx:20 | with non-negative quantities the count is non-negative and at least every single line's quantity |
| CartContext.SumUpdate | frontend/src/contexts/CartContext.tsx:20 | changing one line's quantity changes the count by the difference |
| CartContext.IncrementMatchesResync | frontend/src/contexts/CartContext.tsx:20-29 | the local increment agrees with a resync after adding one unit, whether to an existing line or as a new line of quantity 1 |
| CartContext.CartProvider.constructor | frontend/src/contexts/CartContext.tsx:15 | the first render shows the count 0 |
| CartContext.CartProvider.UpdateCartCount | frontend/src/contexts/CartContext.tsx:17-25 | `updateCartCount` stores the count of the fetch outcome, and the tab changes only as the client's response interceptor says |
| CartContext.CartProvider.IncrementCartCount | frontend/src/contexts/CartContext.tsx:27-29 | `incrementCartCount` adds one to the count and makes no request |
| CartContext.Mount | frontend/src/contexts/CartContext.tsx:14-33 | mounting the provider renders 0 and then resyncs, leaving the count of the fetch outcome |
| CartContext.CountNonNegative | frontend/src/contexts/CartContext.tsx:17-25 | the count is never negative while the server's quantities are not |
| ApiClient.WithBearer | frontend/src/lib/api.ts:11-17 | with a truthy stored token the request carries `Authorization: Bearer <token>`; otherwise the headers are unchanged; every other header is kept and none is added |
| ApiClient.RequestConfig.constructor | frontend/src/lib/api.ts:11 | a request configuration holds the url and headers it was created with |
| ApiClient.InterceptRequest | frontend/src/lib/api.ts:11-17 | the request interceptor sets the headers as described above from the tab's stored token and leaves the url alone |
| ApiClient.Unauthorized | frontend/src/lib/api.ts:23-29 | a 401 removes exactly the token and user from storage, and navigates to `/login` only in a browser on a path that does not contain `/login` |
| ApiClient.AfterResponse | frontend/src/lib/api.ts:20-32 | only a rejection with status 401 changes the tab, as described above; every other outcome leaves it alone |
| ApiClient.InterceptResponse | frontend/src/lib/api.ts:20-32 | the response interceptor passes the outcome on unchanged and changes the tab as described above |
| ApiClient.UnauthorizedIdempotent | frontend/src/lib/api.ts:23-29 | a second 401 changes nothing more |
| ApiClient.SentinelTokenIsSent | frontend/src/lib/api.ts:12-14 | a stored `"undefined"` token, which the session's mount check refuses, is still sent as `Bearer undefined` |
| ApiClient.UnauthorizedLeavesSessionSignedIn | frontend/src/lib/api.ts:23-25 | a 401 clears the stored token but not the session's signed-in flag, so a signed-in session no longer agrees with storage |
| CartPage.WithQuantity | frontend/src/app/cart/page.tsx:102-104 | the optimistic map keeps the number of lines |
| CartPage.WithQuantityAt | frontend/src/app/cart/page.tsx:102-104 | the map sets the quantity of exactly the lines with that id and leaves every other line, in place |
| CartPage.Without | frontend/src/app/cart/page.tsx:121 | the optimistic filter never adds lines |
| CartPage.WithoutKeeps | frontend/src/app/cart/page.tsx:121 | the filter keeps exactly the lines whose id differs |
| CartPage.TotalAppend | frontend/src/app/cart/page.tsx:106 | the recomputed total of two runs of lines is the sum of their totals |
| CartPage.WithoutAppend | frontend/src/app/cart/page.tsx:121 | the filter distributes over concatenation, so it keeps the relative order of the lines it keeps |
| CartPage.WithoutAbsent | frontend/src/app/cart/page.tsx:121 | removing an id no line carries leaves the lines as they are |
| CartPage.TotalSplit | frontend/src/app/cart/page.tsx:106 | the total of lines split around one line is the sum of the parts |
| CartPage.WithoutSplit | frontend/src/app/cart/page.tsx:121 | removing the id of a line no other line shares leaves the lines around it |
| CartPage.TotalReplace | frontend/src/app/cart/page.tsx:106 | replacing one line changes the total by the difference of the two lines' amounts |
| CartPage.WithQuantityOne | frontend/src/app/cart/page.tsx:102-104 | with distinct ids the map changes exactly the one line with that id |
| CartPage.TotalAfterQuantity | frontend/src/app/cart/page.tsx:102-107 | changing that line's quantity changes the optimistic total by its price times the difference |
| CartPage.ServerLinesGiveNaN | frontend/src/app/cart/page.tsx:106 | over the lines the backend sends, which have no `productPrice`, the page's optimistic total of a non-empty cart is NaN |
| CartPage.CorrectedTotalMatchesServer | frontend/src/app/cart/page.tsx:106 | reading the price from `unitPrice`, the optimistic total equals the backend's sum of unit price times quantity |
| CartPage.UnitPriceExample | frontend/src/app/cart/page.tsx:106 | one line of unit price 1000 and quantity 2 gives NaN as written and 2000 corrected, as on the backend |
| CartPage.TotalWithout | frontend/src/app/cart/page.tsx:121-123 | removing the one line with that id leaves the lines before and after it, and lowers the total by that line's amount |
| CartPage.EmptyIffNoCount | frontend/src/app/cart/page.tsx:143 | with positive quantities, the page shows an empty cart exactly when the badge count of the same cart is 0 |
| CartPage.Edited | frontend/src/app/cart/page.tsx:107 | the optimistic cart keeps its id and holds the edited lines with the total recomputed from them |
| CartPage.Loaded | frontend/src/app/cart/page.tsx:77-91 | `loadCart` always ends loading and fetches the cart; a fetched cart is shown and followed by the count's own fetch; a failure keeps the cart shown; a 401 clears the session and the page lands on `/login`; any other failure leaves the tab alone |
| CartPage.QuantityUpdated | frontend/src/app/cart/page.tsx:97-116 | a quantity below 1 does nothing; otherwise the cart is edited optimistically, the update is sent, and the page reloads; a failed update, or a cart with no items field, shows the failure toast; the reloaded cart wins, and the optimistic one stays when the reload fails |
| CartPage.ItemRemoved | frontend/src/app/cart/page.tsx:118-133 | the line is removed optimistically, the removal is sent and the page reloads; the success toast follows a sent removal, the failure toast a failed one or a cart with no items field; the reloaded cart wins, and the optimistic one stays when the reload fails |
| CartPage.Page.constructor | frontend/src/app/cart/page.tsx:74-75 | the page starts with no cart, loading |
| CartPage.Page.LoadCart | frontend/src/app/cart/page.tsx:77-91 | the page's state, the shared count and the tab change as `loadCart` says |
| CartPage.Page.HandleUpdateQuantity | frontend/src/app/cart/page.tsx:97-116 | the page's state, the shared count and the tab change as `handleUpdateQuantity` says |
| CartPage.Page.HandleRemoveItem | frontend/src/app/cart/page.tsx:118-133 | the page's state, the shared count and the tab change as `handleRemoveItem` says |
| SearchPage.MatchesIffSomeField | frontend/src/app/search/page.tsx:42-47 | for a non-empty query, a product is kept exactly when the lower-cased query occurs in one of its present text fields: name, description, category name or brand name |
| SearchPage.NoBrandNeverMatchesOnBrand | frontend/src/app/search/page.tsx:46 | a product without a brand is kept only through its other fields |
| SearchPage.MatchIgnoresQueryCase | frontend/src/app/search/page.tsx:43-46 | the match ignores the query's letter case |
| SearchPage.Filter | frontend/src/app/search/page.tsx:42-47 | the filter never adds products |
| SearchPage.FilterKeeps | frontend/src/app/search/page.tsx:42-47 | the filter keeps exactly the matching products |
| SearchPage.FilterAppend | frontend/src/app/search/page.tsx:42 | the filter distributes over concatenation, so it keeps the listing's order |
| SearchPage.AsWrittenAgrees | frontend/src/app/search/page.tsx:42-47 | where every product has a description and a category name, the filter as written gives the corrected filter's result |
| SearchPage.NullDescriptionFailsSearch | frontend/src/app/search/page.tsx:43-44 | one product with a null description whose name does not match makes the filter as written throw |
| SearchPage.AsWrittenOkIsFilter | frontend/src/app/search/page.tsx:42-47 | whenever the filter as written does not throw, its result is the corrected filter's result |
| SearchPage.NullDescriptionExample | frontend/src/app/search/page.tsx:42-47 | a lamp without a description hides the chair the query asks for: the filter as written throws where the corrected one returns the chair |
| SearchPage.BackendHitsAreKept | frontend/src/app/search/page.tsx:42-47 | every product the backend's own search finds is kept by the page's filter too |
| SearchPage.FirstPage | frontend/src/app/search/page.tsx:38 | the first page holds at most 50 products, a prefix of the listing |
| SearchPage.ResultsFromFirstPage | frontend/src/app/search/page.tsx:38-49 | results come only from the first 50 products of the listing, so there are at most 50 |
| SearchPage.Page.constructor | frontend/src/app/search/page.tsx:26-27 | the page starts with no products, loading |
| SearchPage.Page.SearchProducts | frontend/src/app/search/page.tsx:35-55 | the search asks for page 0 of size 50 and ends loading. It shows the products of the fetched content that the corrected filter keeps, which is the page's own filter result whenever that filter does not throw. A failed fetch keeps the products shown |
| SearchPage.Page.OnQuery | frontend/src/app/search/page.tsx:24-33 | an empty or missing query runs no search and changes nothing, so the page stays loading. Any other query runs one search: the tab takes the response interceptor's effect, a failed fetch keeps the products shown, and a fetched page shows the corrected filter's result for that query |
| Strings.ContainsIffOccursAt | frontend/src/app/search/page.tsx:43-46 | `includes` holds exactly when the substring occurs at some position |
| Strings.ToLowerIdempotent | backend/src/main/java/com/shopifyr/backend/repository/ProductRepository.java:25-26 | lower-casing twice is lower-casing once |
| Strings.TrimIsTrimmed | backend/src/main/java/com/shopifyr/backend/config/CorsResponseFilter.java:39 | `trim()` leaves no removable character at either end and returns a factor of its input |
| Strings.NotBlankIff | backend/src/main/java/com/shopifyr/backend/dto/RegisterRequest.java:8-10 | `@NotBlank` holds exactly when some character lies above U+0020, as `trim()` decides it |
| Strings.Utf16Length | backend/src/main/java/com/shopifyr/backend/dto/RegisterRequest.java:9-10 | the length `@Size` bounds counts UTF-16 units: between the number of scalar values and twice it, and equal to it without supplementary characters |
| Strings.ValidationExamples | backend/src/main/java/com/shopifyr/backend/dto/RegisterRequest.java:8-10 | a name of one ideographic space passes `@NotBlank` and U+0001 does not; two and three emoji are 4 and 6 units long for `@Size` |
| Strings.TrimNoop | backend/src/main/java/com/shopifyr/backend/config/CorsResponseFilter.java:39 | `trim()` leaves a string without removable ends unchanged |
| Strings.Split | backend/src/main/java/com/shopifyr/backend/config/CorsResponseFilter.java:38 | `split` on one character yields at least one piece and no piece holds the separator |
| Strings.SplitJoin | backend/src/main/java/com/shopifyr/backend/config/CorsResponseFilter.java:38 | splitting undoes joining when no piece holds the separator |
| Strings.ReplaceAllPrefix | backend/src/main/java/com/shopifyr/backend/config/ImageMigrationRunner.java:33 | a string starting with the target starts with the replacement after `replace` |
| Strings.ReplaceAllAbsent | backend/src/main/java/com/shopifyr/backend/config/ImageMigrationRunner.java:33 | `replace` returns a string without the target unchanged |
| Strings.IndexOf | backend/src/main/java/com/shopifyr/backend/config/RailwayDataSourceEnvPostProcessor.java:52 | `indexOf` is -1 exactly when the character is absent, and otherwise its first position |
| Strings.LastIndexOf | backend/src/main/java/com/shopifyr/backend/service/FileStorageService.java:43 | `lastIndexOf` is -1 exactly when the character is absent, and otherwise its last position |
| Strings.NatToStringValue | backend/src/main/java/com/shopifyr/backend/config/RailwayDataSourceEnvPostProcessor.java:48 | the decimal rendering of a port reads back as the port |
| Http.Response.SetHeader | backend/src/main/java/com/shopifyr/backend/config/CorsResponseFilter.java:51-56 | `setHeader` replaces that header's value and changes nothing else |
| Http.Response.SetStatus | backend/src/main/java/com/shopifyr/backend/config/RateLimitingFilter.java:58 | `setStatus` sets the status and changes nothing else |
| Http.Response.Write | backend/src/main/java/com/shopifyr/backend/config/RateLimitingFilter.java:59 | writing appends to the body and changes nothing else |
| Browser.Window.GetItem | frontend/src/lib/api.ts:12 | `localStorage.getItem` is the stored value, or null when the key is absent |
| Browser.Window.SetItem | frontend/src/contexts/AuthContext.tsx:52 | `localStorage.setItem` stores that value under the key and changes nothing else |
| Browser.Window.RemoveItem | frontend/src/contexts/AuthContext.tsx:61-62 | `localStorage.removeItem` removes that key and changes nothing else |
| Browser.Window.Navigate | frontend/src/contexts/AuthContext.tsx:65 | a navigation sets the path and records the visit |

## Left out

- The JPA entity classes, the repositories other than `OrderRepository`, `OrderItemAnalyticsRepository` and `ProductRepository`, and `JwtUtil` are not part of this model; the records in `Entities` carry the fields the services read and write.
- Referential integrity between tables is enforced by the store only from payments to orders (`PaymentsOk`); elsewhere the services' own lookups decide what exists, as in the code.
- Carts are stored by user and inventory records by product, because the services only reach them through `findByUserId` and `findByProductId`; the separate cart-item repository is folded into the cart's line list.
- `@Transactional` is modelled only as all-or-nothing; caching annotations, the persistence context and flushing are left out. `removeCartItem` returns the stored cart, not what the ORM session happens to hold.
- CartService.AddItemToCart checks the raised line's stock before creating a missing cart, while the Java code saves the new cart first; in a transaction both give the same outcome, and a new cart never has a line to raise.
- OrderService.ToResponse: `OrderResponse` declares seven components and `toResponse` passes six; the model has no `estimatedDeliveryDate` and no `createdAt` in the response.
- OrderService.ToResponse, CartService.ToResponse: item responses carry no product name and carts no `createdAt`; names come from the product table and the timestamps from the clock.
- OrderService.ToResponse: the order's item responses also drop the line `id` that `OrderItemResponse` declares; the lines are listed in order instead.
- WishlistService.ToResponse: the response has no `createdAt`, since timestamps come from the clock.
- ProductService.ToResponse: the response has no `createdAt` and no `updatedAt`, for the same reason.
- Timestamps are integers supplied by the caller; date arithmetic (`plusDays`, `minusNanos`), `getDailySales`, `getMonthlySales`, `getOrderCountByStatus` and the `DATE`/`DATE_TRUNC` queries are left out.
- `Pageable` paging is left out of the backend queries: they return all matching rows in table order; the search page's page request is modelled by `SearchPage.FirstPage`.
- `getAllProducts`, `getAllCategories`, `getAllBrands`, `getProductReviews` and `getProductAverageRating` are plain reads of a table and are left out.
- OrderItemAnalyticsRepository.SortDesc: groups of equal weight come out in the reverse of their input order, which is one of the orders SQL allows, since it leaves the order of ties unspecified; the model promises nothing more about ties.
- AnalyticsService.GetRevenuePerCategory: the groups come out of a `HashMap` in an unspecified order; the model lists them by first occurrence and states only membership, sums and totals.
- SQL `LIKE` wildcards inside the query text (`%`, `_`) are treated as plain characters; `LOWER`, `toLowerCase` and `equalsIgnoreCase` are modelled on ASCII letters only.
- Spring's path patterns are reduced to the two shapes the rules use, a subtree (`/x/**`) and an exact path.
- `java.net.URI` parsing is the parameter `parse`, which yields None where the constructor throws.
- Bucket4j's time-based greedy refill is the explicit step `RateLimitingFilter.Filter.Refill`; `ConcurrentHashMap` thread safety is left out.
- `StringUtils.cleanPath`, `UUID.randomUUID` and `Files.copy` are parameters or left out: only the validation and the returned URL are modelled.
- The password encoder, the password matcher and the token generator are function parameters.
- AuthService.Register: its precondition is `RegisterRequest`'s `@NotBlank` and `@Size` annotations, which the controller's `@Valid` enforces before the service runs. The `@Email` format check is not part of it, so the model admits more emails than the controller does.
- The `ValidRequest` preconditions of the product, category, brand and review services are their request records' `@NotBlank`, `@Size` and range annotations. `@NotBlank` is Hibernate Validator's trim check (`Strings.NotBlank`), and `@Size` counts UTF-16 units (`Strings.Utf16Length`).
- SearchPage.Page.SearchProducts: it applies the corrected filter. Where the page's own filter throws on a null description or category name, the page as written keeps the products it showed before; the model instead shows the matching products. Where that filter does not throw, the two agree, and the method's contract says so.
- ImageMigrationRunner: the loops run over a copy of the table, as `findAll` returns one, and the logging is left out.
- EmailService (mail I/O), the application bootstrap, `Coupon` and the HTTP-only controllers are left out; `UserController` is modelled because it holds the profile update logic.
- `JSON.parse` and `JSON.stringify` are function parameters; only the `token` and `user` local storage keys are modelled.
- `router.push` and assignments to `location.href` are both recorded as a navigation of the tab; the page does not reload in the model.
- The response interceptor removes the storage keys even where there is no window; a server render has no local storage, and the model does not cover that case.
- Toasts are recorded as a list of messages; rendering, styling and animation are left out.
- Asynchrony is sequentialised: each handler runs its awaited calls one after the other, and interleaved handlers are left out.
- The `*Api` wrappers in `api.ts` are thin call-throughs; each request's outcome is a parameter of the handler that makes it.
- JavaScript numbers and Java `BigDecimal` amounts are integer cents, and Java's 32-bit `int` overflow is not modelled; `toFixed` and other formatting is left out.
- CartPage.Page.HandleUpdateQuantity, CartPage.Page.HandleRemoveItem: the lines hold the price the page means, the server's `unitPrice`, under the page's name `productPrice`; the NaN total the page computes against this backend is modelled separately (see "## Findings").
- SearchPage.Page.OnQuery: an empty query starts no search and leaves the page on its spinner, as the code does.
- The listing controller that serves `productApi.getAll` is not part of this model; the search page receives a page of `ProductResponse` values.
- The login, register, checkout, profile, orders and home pages, the layout and the UI components render state only and are left out.

## Findings

| source | as written | input that shows it | evidently intended | confidence | as-written member | corrected member |
|---|---|---|---|---|---|---|
| frontend/src/app/search/page.tsx:42-47 | the filter calls `toLowerCase` on `description` and `categoryName` without a null check, so a product created without a description throws inside `filter` unless its name already matched, and the whole search shows nothing new | products "Lamp" (no description, category "Home") and "Chair" (description "Oak"), query "chair" | a null field simply does not match, and the search returns "Chair" | not executed | SearchPage.NullDescriptionExample | SearchPage.FilterKeeps |
| frontend/src/app/cart/page.tsx:106 | the optimistic total multiplies `item.productPrice` by the quantity, but `CartItemResponse` sends the price as `unitPrice`, so the product is NaN and the whole total becomes NaN. Rendering reads the same missing field at line 211 (`item.productPrice.toLocaleString`), which throws for any non-empty cart before that total can be seen; rendering is not part of this model | a cart with one line of unit price 1000 and quantity 2 | the total reads `unitPrice` and equals the backend's 2000 | not executed | CartPage.UnitPriceExample | CartPage.CorrectedTotalMatchesServer |
