# shopnest core, modelled in Dafny

This project models the core of shopnest, an e-commerce REST backend built with NestJS and Prisma.

**Carts.** A user has one cart, created the first time the user adds to it. Adding a product that the cart already holds adds the quantity to the existing line. Adding a product that does not exist fails with Prisma's foreign-key error P2003, and a cart created on the way stays. A line can be deleted only from the user's own cart.

**Orders.** An order is made from the cart:
- The total is a left fold over the cart lines. It counts only lines that have a product, a truthy price and a positive quantity.
- Creation is refused for a missing cart, an empty cart, or a total that is not positive.
- Otherwise the order stores every line as (product, quantity), and the cart is cleared.
- Confirming an order is one-way. It succeeds only for the owner's unconfirmed order.

**Products.**
- Search takes up to three substring filters and two price bounds. A filter or bound that is falsy (an empty string or 0) is ignored. Results come newest first.
- Updating a product with a specification list replaces the product's specification set. Unlisted names are deleted, then each entry is upserted on (productId, name).
- The repository's and the service's catch blocks turn Prisma errors into HTTP errors:
  - P2002 (unique constraint) becomes 409 Conflict. The duplicate-name scan over the request's specification list picks the message. One exception: in the repository's update, a constraint-name (string) target that does not pass the name test makes the catch block itself throw a TypeError (`target?.join` on a string).
  - P2025 (record not found) becomes 404 NotFound.

**Access and validation.**
- The roles guard lets a request through when the route declares no roles, or when the user's role is among the declared ones.
- Four request bodies are validated with class-validator decorators: card payment, register/login, create product, and search.

## How the model is built

**Tables.** The Prisma tables are Dafny `seq`s and `map`s, held as fields of one class per repository (`CartStore`, `OrderStore`, `ProductRepository`). Each class has a `Valid()` invariant:
- autoincrement ids;
- cart and order ids equal to their table positions;
- every specification belongs to an existing product.

**Repository methods.** These are methods that reassign the fields. Each one is specified against a pure function of the old tables.

**Services.** These are classes over their repositories.

**Loops.** The loops the source writes are Dafny `while` loops with invariants:
- the duplicate-name scan, `ProductErrors.FirstDuplicate`;
- the specification upserts, `Products.ProductRepository.ReplaceSpecifications`.

**Errors.** Thrown errors are a `Result` value. `Error` is one of:
- `NotFound(reason)`;
- `Conflict(reason)`;
- `Other(raw)`, for an error that is rethrown unchanged.

A reason names the message the source builds. Prisma's known-request errors are `KnownRequest(code, target, message)`. Their target is one of:
- a constraint-name string;
- a list of fields;
- absent.

**Inputs that stand for the world.**
- The clock is a parameter: `now`, the product's `createdAt`.
- So are product prices for the cart join (`prices`).
- So is the set of existing product ids for the cart (`products`), which decides P2003 on a new cart line.
- So are database failures that the in-memory tables do not decide. Product create, update and remove take `failure: Option<StoreError>` for this: a unique product name, or any other database error.
- A missing row (P2025) and a repeated specification name on create (the (productId, name) unique index) are computed from the tables.

**Numbers.** Prices are integers, standing for cents. Validator numbers are reals.

## Model

| member | source | states |
|---|---|---|
| Cart.FirstCartOf | src/cart/cart.repository.ts:13-16 | `findFirst({ where: { userId } })` returns one of the user's carts, or none exactly when the user has no cart |
| Cart.LineFor | src/cart/cart.repository.ts:35-40 | finds a line of that cart for that product; none exactly when no line matches both |
| Cart.LineWithId | src/cart/cart.repository.ts:47-48 | finds the line with that id; none exactly when no line has it |
| Cart.SetQuantity | src/cart/cart.repository.ts:47-52 | the update changes the quantity of the line with that id and no other field or line |
| Cart.LinesOf | src/cart/cart.repository.ts:15 | the included `cartItems` are exactly the table's lines of that cart; ids stay increasing |
| Cart.WithoutCart | src/orders/orders.service.ts:55 | clearing a cart keeps exactly the lines of other carts |
| Cart.WithoutItem | src/cart/cart.repository.ts:69-71 | a delete by id keeps exactly the lines with another id |
| Cart.WithProducts | src/orders/orders.service.ts:19-20 | the cart view pairs every line, in order, with its product's price, or null when the product is missing |
| Cart.ClearCartIdempotent | src/cart/cart.service.spec.ts:343-361 | clearing a cart twice equals clearing it once, so clearing an empty or unknown cart succeeds |
| Cart.ClearCartKeepsOtherCarts | src/orders/orders.service.ts:55 | clearing one cart leaves every other cart's lines unchanged and in order |
| Cart.CartStore.constructor | src/cart/cart.repository.ts:8 | empty tables satisfy the invariant |
| Cart.CartStore.FindCartByUserId | src/cart/cart.repository.ts:10-17 | the user's cart with exactly its lines, or None exactly when the user has no cart |
| Cart.CartStore.FindCartItem | src/cart/cart.repository.ts:31-41 | the line of that cart for that product, or None exactly when there is none |
| Cart.CartStore.DeletableItem | src/cart/cart.repository.ts:68-72 | the line `deleteCartItem` may delete: the line with that id, only when its cart is the user's |
| Cart.CartStore.FindCartWithItemsByUserId | src/cart/cart.service.spec.ts:295-316 | None exactly when the user has no cart; otherwise that cart with every line joined to its product, in order |
| Cart.CartStore.CreateCart | src/cart/cart.repository.ts:19-29 | appends a cart with the next id for the user, with no lines, touching nothing else |
| Cart.CartStore.UpdateCartItemQuantity | src/cart/cart.repository.ts:43-53 | a missing line gives P2025 and changes nothing; otherwise only that line's quantity changes and the updated line is returned |
| Cart.CartStore.CreateCartItem | src/cart/cart.repository.ts:55-66 | succeeds exactly when the cart and the product exist, appending a line with the next id; otherwise fails with P2003 and changes nothing |
| Cart.CartStore.DeleteCartItem | src/cart/cart.repository.ts:68-72 | deletes the line only when its cart is the user's; otherwise P2025 and nothing changes |
| Cart.CartStore.ClearCart | src/orders/orders.service.ts:55 | removes exactly that cart's lines and touches no cart |
| Cart.CartService.HandleCart | src/cart/cart.service.ts:31-39 | returns the user's existing cart, or creates an empty one; afterwards the user has exactly that cart, and one cart per user is preserved |
| Cart.CartService.AddItem | src/cart/cart.service.ts:10-25 | the user ends up with a cart (kept even when the add fails); succeeds exactly when the cart already holds the product or the product exists, and then the lines become `AfterAdd`; an unknown product gives P2003 and leaves the lines unchanged; one line per product and cart, and one cart per user, are preserved |
| Cart.CartService.PutInCart | src/cart/cart.service.ts:13-24 | once the cart is known: the existing line gets the quantity added, else a line with the next id is appended, which fails with P2003 for an unknown product and changes nothing; the returned line is `AddedLine` |
| Cart.AddedLine | src/cart/cart.service.ts:18-24 | the returned line belongs to that cart and product and holds the quantity the cart held before plus the added one |
| Cart.AfterAdd | src/cart/cart.service.ts:18-24 | adding grows the table by one line exactly when the cart held no line for the product; every existing line keeps its id, product and cart |
| Cart.CartService.RemoveItem | src/cart/cart.service.ts:27-29 | deletes the line only from the user's own cart; otherwise the raw P2025 error and no change |
| Cart.FirstCartOfAppended | src/cart/cart.service.ts:34-37 | after a user without a cart gets one, the lookup finds that cart |
| Cart.AddKeepsOneLinePerProduct | src/cart/cart.service.ts:13-24 | `addItem` never creates a second line for a product in a cart |
| Cart.AddItemAddsQuantity | src/cart/cart.service.ts:18-24 | after `addItem`, the cart holds the old quantity plus the added one for that product; every other (product, cart) lookup is unchanged |
| Cart.AddToExistingLine | src/cart/cart.service.ts:18-23 | the existing-line branch updates that line in place and no other lookup changes |
| Cart.AddKeepsEveryLine | src/cart/cart.service.ts:18-24 | `addItem` deletes nothing: every line keeps its place and id, and only the added-to line may change, whatever the sign of the result |
| Cart.AddItemExamples | src/cart/cart.service.ts:18-24 | adding 2 to a line of 1 gives 3; adding -3 gives -2 and the line stays |
| Orders.Fold | src/orders/orders.service.ts:32-37 | the `reduce` from any start adds the price times quantity of exactly the counted lines (the independent sum `SumCounted`) |
| Orders.TotalAmount | src/orders/orders.service.ts:32-37 | the total equals the independent sum over lines with a product, a non-zero price and a positive quantity |
| Orders.NoCountedLineZeroTotal | src/orders/orders.service.ts:32-37 | lines that are all excluded (null product, price 0, quantity of 0 or less) total 0 |
| Orders.TwoLinesExample | src/orders/orders.service.spec.ts:203-241 | 2 at 10 plus 3 at 15 totals 65 |
| Orders.OrderLines | src/orders/orders.service.ts:45-48 | the order items are every cart line, in order, as (productId, quantity), counted or not |
| Orders.DraftOf | src/orders/orders.service.ts:19-48 | no cart is CartNotFound; an empty cart is EmptyCart; a total of 0 or less is NonPositiveTotal; otherwise the positive total and the full snapshot. Success holds exactly when the cart is non-empty with a positive sum |
| Orders.AllExcludedRejected | src/orders/orders.service.spec.ts:161-201 | a non-empty cart whose lines are all excluded is refused with NonPositiveTotal |
| Orders.NewOrder | src/orders/orders.repository.ts:35-57 | the inserted order is unconfirmed, carries the user, total and items given, and takes the next id |
| Orders.OrdersOf | src/orders/orders.repository.ts:96-105 | exactly the orders of that user |
| Orders.FindOrder | src/orders/orders.repository.ts:63-71 | finds an order only when both its id and its user match |
| Orders.ConfirmResult | src/orders/orders.repository.ts:59-94 | success exactly for the user's unconfirmed order, and the result is confirmed |
| Orders.AfterConfirm | src/orders/orders.repository.ts:82-93 | the table after a confirm keeps ids equal to positions |
| Orders.ConfirmChangesOnlyThatOrder | src/orders/orders.repository.ts:82-93 | a successful confirm flips `isConfirmed` on that order only, and returns it; a refused confirm changes nothing |
| Orders.ConfirmTwiceConflicts | src/orders/orders.repository.ts:77-81 | confirming a just-confirmed order is a Conflict |
| Orders.OtherUsersOrderNotFound | src/orders/orders.repository.ts:63-76 | another user's order is NotFound and stays unchanged |
| Orders.OrderStore.constructor | src/orders/orders.repository.ts:11 | an empty table satisfies the invariant |
| Orders.OrderStore.CreateOrder | src/orders/orders.repository.ts:35-57 | appends exactly `NewOrder` and returns it |
| Orders.OrderStore.CreateOrderAndItems | src/orders/orders.repository.ts:13-33 | the same insert as `createOrder` |
| Orders.OrderStore.FindOrderById | src/orders/orders.service.ts:64-67 | the order when both id and user match, else None |
| Orders.OrderStore.UpdateOrder | src/orders/orders.service.ts:78 | sets `isConfirmed` on the matching order only; P2025 and no change when none matches |
| Orders.OrderStore.ConfirmOrder | src/orders/orders.repository.ts:59-94 | returns `ConfirmResult` and leaves the table as `AfterConfirm` |
| Orders.OrderStore.FindAll | src/orders/orders.repository.ts:96-105 | exactly the user's orders |
| Orders.OrdersService.constructor | src/orders/orders.service.ts:11-15 | the service holds the stores it is given |
| Orders.OrdersService.Create | src/orders/orders.service.ts:16-58 | a refused draft returns its error and changes nothing; otherwise inserts the order with the computed total and items and clears exactly that cart |
| Orders.OrdersService.ConfirmOrder | src/orders/orders.service.ts:60-79 | NotFound, then Conflict, else the confirmed order; only that order changes |
| ProductData.Matches | src/product/product.repository.ts:19-42 | the conjunction of the active filters: a query with no active filter matches everything, a description filter never matches a null description, crossed bounds match nothing, and a matched name is at least as long as the filter |
| ProductData.Filter | src/product/product.repository.ts:19-42 | a product is kept exactly when it satisfies every active filter |
| ProductData.ConsNewestFirst | src/product/product.repository.ts:46-48 | putting a product before no newer products keeps the list newest first |
| ProductData.Insert | src/product/product.repository.ts:46-48 | insertion into a newest-first list keeps it newest first and adds exactly that product |
| ProductData.SortNewestFirst | src/product/product.repository.ts:46-48 | the result is newest first and a permutation of the input |
| ProductData.Search | src/product/product.repository.ts:16-50 | newest first; a permutation of the filtered products; contains a product exactly when it is stored and matches |
| ProductData.ZeroBoundIsNoBound | src/product/product.repository.ts:36-40 | a price bound of 0 filters exactly like an absent bound |
| ProductData.EmptyTextIsNoFilter | src/product/product.repository.ts:21-35 | an empty name, category or description filters exactly like an absent one |
| ProductData.EmptyQueryMatchesAll | src/product/product.repository.ts:19-49 | the empty query returns every product |
| ProductData.DescriptionFilterSkipsNull | src/product/product.repository.ts:31-35 | a description filter never matches a product whose description is null |
| ProductData.FindProduct | src/product/product.repository.ts:137-140 | finds a product with that id; none exactly when no product has it |
| ProductData.ReplaceProduct | src/product/product.repository.ts:151-155 | only the row with that id is replaced, in place |
| ProductData.WithoutProduct | src/product/product.repository.ts:220-223 | exactly the rows with another id remain |
| ProductData.Patched | src/product/product.repository.ts:149-155 | each present field (name, description, price, category, image URL) replaces the stored one and each absent field keeps it; the id and creation time never change |
| ProductData.SpecsOf | src/product/product.repository.ts:43-45 | the included specifications are exactly the product's rows, name to value |
| ProductData.SpecsWithout | src/product/product.repository.ts:220-223 | deleting a product drops exactly its specification rows |
| ProductData.NamesOf | src/product/product.repository.ts:161-164 | exactly the names that occur in the list |
| ProductData.Pruned | src/product/product.repository.ts:157-166 | both forms of the `NOT` delete keep exactly the other products' rows and the listed names, with their values |
| ProductData.LastValue | src/product/product.repository.ts:169-183 | a listed name has a last value; an unlisted one has none |
| ProductData.UpsertAll | src/product/product.repository.ts:168-185 | the upserts remove no row, make every listed name of the product present, and leave other products' rows untouched |
| ProductData.UpsertAllSets | src/product/product.repository.ts:168-185 | after the upserts, the listed names are present with their last value, and other rows are unchanged |
| ProductData.SyncLeavesExactlyListed | src/product/product.repository.ts:157-185 | after an update with a list, the product has exactly the listed names (none for an empty list), each with its last value; other products are unchanged |
| ProductData.SyncedSpecs | src/product/product.repository.ts:157-185 | the delete then the upserts leave other products' rows as they were and every listed name of the product present |
| ProductErrors.SpecNames | src/product/product.service.ts:114 | the names of the list, in order, or none when the list is absent |
| ProductErrors.FirstRepeat | src/product/product.service.ts:114-124 | a reported name occurs in the list |
| ProductErrors.FirstRepeatCharacterized | src/product/product.service.ts:114-124 | nothing is reported exactly when the names are distinct; a reported name's second occurrence ends the shortest prefix with a repeat |
| ProductErrors.FirstRepeatExtends | src/product/product.service.ts:118-123 | the scan stops at the first repeat: longer lists report the same name |
| ProductErrors.FirstDuplicate | src/product/product.service.ts:114-124 | the counting loop with `break` returns `FirstRepeat` of the names |
| ProductErrors.RepeatedColorReported | src/product/product.service.spec.ts:407-435 | Color, Size, Color, Weight reports Color |
| ProductErrors.ScanAsWritten | src/product/product.service.ts:115-124 | the plain-object loop reports only a listed name, and an inherited key only when the dictionary already held a number of its own for it |
| ProductErrors.ReportedAsWritten | src/product/product.service.ts:115-126 | as written, a reported name is listed, non-empty and never an inherited key |
| ProductErrors.AsWrittenScanMatches | src/product/product.service.ts:115-124 | on names that are not inherited keys, the plain-object scan agrees with `FirstRepeat` |
| ProductErrors.AsWrittenAgreesOnOrdinaryNames | src/product/product.service.ts:115-126 | on names that are neither inherited keys nor empty, the code as written reports what `FirstRepeat` reports |
| ProductErrors.InheritedNameNotReported | src/product/product.service.ts:115-124 | a repeated "constructor" is a repeat, yet as written it is not reported |
| ProductErrors.EmptyNameNotReported | src/product/product.service.ts:126 | a repeated "" is found by the scan but dropped by the truthiness test |
| ProductErrors.SpecConflict | src/product/product.service.ts:126-134 | DuplicateSpecName naming the scan's result exactly when the scan found one, else the specification-name conflict for the product |
| ProductErrors.ServiceConflict | src/product/product.service.ts:93-139 | an absent target gives exactly the unknown-constraint conflict; the product-name target gives ProductNameExists; the spec-key target gives DuplicateSpecName exactly when the names repeat, naming the first repeat, and the specification-name conflict when they are distinct; anything else is the generic conflict with that target |
| ProductErrors.CreateConflict | src/product/product.repository.ts:78-122 | never the unknown-constraint conflict; the product-name target gives ProductNameExists; the spec-key target gives DuplicateSpecName exactly when the names repeat, naming the first repeat; anything else, an absent target included, is the generic conflict |
| ProductErrors.HandlePrismaError2022 | src/product/product.service.ts:88-140 | the method, with its loop, throws `ServiceConflict` |
| ProductErrors.ClassifyCreateConflict | src/product/product.repository.ts:78-122 | the repository's copy, with its loop, throws `CreateConflict` |
| ProductErrors.CreateClassifiersAgree | src/product/product.repository.ts:78-122 | the repository's copy agrees with the service's on every present target; on an absent target it gives the generic conflict instead of "Unknown constraint violation" |
| ProductErrors.CreateError | src/product/product.repository.ts:73-125 | the catch of create: a conflict exactly for P2002; anything else is rethrown unchanged |
| ProductErrors.UpdateError | src/product/product.repository.ts:193-215 | P2025 gives NotFound; only P2002 gives a conflict; a target mentioning `name` with a message mentioning `Product` gives ProductNameTaken; otherwise an absent target or a field list gives the generic conflict with those fields, and a constraint-name target the TypeError; anything else is rethrown unchanged |
| ProductErrors.StringTargetThrowsTypeError | src/product/product.repository.ts:199-211 | a constraint-name target that fails the name test makes `target?.join` throw a TypeError instead of a conflict |
| ProductErrors.RemoveError | src/product/product.repository.ts:224-232 | NotFound exactly for P2025; anything else is rethrown unchanged |
| ProductErrors.ServiceCreateCatch | src/product/product.service.ts:25-37 | a raw P2002 becomes a conflict, the unknown-constraint one for an absent target and otherwise the repository's own classification; every other error passes unchanged |
| ProductErrors.ServiceUpdateCatch | src/product/product.service.ts:56-70 | a raw P2025 becomes NotFound, a raw P2002 a conflict (ProductNameExists for the product-name target); every other error passes unchanged |
| ProductErrors.ServiceRemoveCatch | src/product/product.service.ts:77-85 | a raw P2025 becomes NotFound; every other error passes unchanged |
| ProductErrors.ServiceCatchesPassRepositoryErrors | src/product/product.service.ts:21-86 | the service's catch blocks return unchanged every error the repository throws |
| ProductErrors.ServiceCatchesOnRawErrors | src/product/product.service.ts:21-86 | on a raw database error, they classify P2002 on create and update, turn P2025 into NotFound on update and remove, and rethrow the rest |
| Products.NewProduct | src/product/product.repository.ts:54-60 | the inserted row carries the next id, the creation time, and the body's name, price, category, description and image URL |
| Products.SpecList | src/product/product.repository.ts:61-66 | the nested create list: the body's list, or none |
| Products.CreateFailure | src/product/product.repository.ts:54-71 | a given database failure wins; otherwise the insert fails exactly when the list repeats a name |
| Products.RepeatedSpecNameRejected | src/product/product.repository.ts:88-112 | a list repeating a name is refused with DuplicateSpecName naming the first repeat and the product |
| Products.NewProductSpecs | src/product/product.repository.ts:61-66 | a new product gets exactly the listed specification names, each with its last value |
| Products.SyncAddsOnlyTheProduct | src/product/product.repository.ts:157-185 | the sync adds rows for that product only |
| Products.WithoutProductKeepsOrder | src/product/product.repository.ts:220-223 | deleting a row keeps ids increasing |
| Products.ReplaceKeepsOrder | src/product/product.repository.ts:151-155 | replacing a row keeps ids increasing and adds no other row |
| Products.ReplaceFind | src/product/product.repository.ts:186-189 | after the update, lookup by id finds the new row and the other rows as before |
| Products.ProductRepository.constructor | src/product/product.repository.ts:14 | empty tables satisfy the invariant |
| Products.ProductRepository.View | src/product/product.repository.ts:43-45 | a product is returned with exactly its specifications |
| Products.ProductRepository.Search | src/product/product.repository.ts:16-50 | the views of `ProductData.Search`, in its order |
| Products.ProductRepository.FindOne | src/product/product.repository.ts:136-145 | NotFound exactly when no product has the id; otherwise that product with its specifications |
| Products.ProductRepository.Create | src/product/product.repository.ts:52-126 | on failure, the classified error and no change; otherwise appends the product and its listed specifications under the next id |
| Products.ProductRepository.InsertProduct | src/product/product.repository.ts:54-71 | appends the new row under the next id, stores exactly the listed specification names for it, and returns it with them |
| Products.ProductRepository.Update | src/product/product.repository.ts:147-216 | a missing product is NotFound; a failure gives the classified error; otherwise patches that row and, given a list, syncs the specification set. Nothing changes on error |
| Products.ProductRepository.ReplaceSpecifications | src/product/product.repository.ts:157-185 | the delete then the upsert loop leave the specification table as `SyncedSpecs`, touching no product |
| Products.ProductRepository.Remove | src/product/product.repository.ts:218-233 | deletes the product and its specifications and returns both; a missing product or a failure gives the classified error and no change |
| Products.ProductService.constructor | src/product/product.service.ts:15 | the service holds the repository it is given |
| Products.ProductService.FindOne | src/product/product.service.ts:45-51 | NotFound exactly when no product has the id; otherwise that product |
| Products.ProductService.Create | src/product/product.service.ts:21-39 | the same outcome and tables as the repository's create |
| Products.ProductService.Update | src/product/product.service.ts:53-71 | a missing product is NotFound; otherwise the same outcome and tables as the repository's update |
| Products.ProductService.Remove | src/product/product.service.ts:73-86 | a missing product is NotFound; otherwise the same outcome and tables as the repository's remove |
| Roles.RequiredRoles | src/auth/roles.guard.ts:15-18 | the handler's roles when declared, else the class's |
| Roles.AnyMatches | src/auth/roles.guard.ts:32 | true exactly when the user's role is in the list |
| Roles.CanActivate | src/auth/roles.guard.ts:14-33 | with no role metadata every request passes; otherwise it passes exactly when the user has a non-empty role that is listed |
| Roles.NoMetadataAllowsAll | src/auth/roles.guard.ts:19-22 | a route without metadata admits even an anonymous request |
| Roles.MissingRoleDenied | src/auth/roles.guard.ts:27-30 | a route with roles refuses a request without a user or a role |
| Roles.EmptyRoleListDeniesAll | src/auth/roles.guard.ts:19-32 | an empty role list is truthy metadata and refuses everyone |
| Roles.HandlerRolesOverrideClass | src/auth/roles.guard.ts:15-18 | declared handler roles make the class's roles irrelevant |
| Roles.OnlyTheRoleMatters | src/common/interfaces/jwt-payload.interface.ts:1-7 | the decision depends on the user only through `role` |
| Roles.AdminOnlyRoute | src/auth/roles.guard.ts:32 | an ADMIN-only route admits ADMIN and refuses CLIENT |
| Validation.CardPaymentValidIff | src/payment/dto/confirm-card-payment.dto.ts:5-64 | valid exactly when the order id is a number, the card number has 16 characters, the holder name 1 to 50, the expiry date 5 to 7 and the CVV 3 to 4 |
| Validation.CardPaymentFormatsUnchecked | src/payment/dto/confirm-card-payment.dto.ts:40-64 | letters pass as a card number, an expiry date and a CVV: no format is checked |
| Validation.CredentialsValidIff | src/auth/dto/register.dto.ts:4-27 | register is valid exactly when the username has 2 to 22 characters and the password 8 to 22; login accepts exactly the same bodies |
| Validation.Drop | src/auth/dto/register.dto.ts:11-14 | exactly the other decorators remain |
| Validation.NotEmptyImpliedByMinLength | src/auth/dto/register.dto.ts:12-13 | next to a positive minimum length, `@IsNotEmpty()` changes no verdict |
| Validation.CredentialsNotEmptyRedundant | src/auth/dto/register.dto.ts:11-27 | so the username's and the password's `@IsNotEmpty()` are redundant |
| Validation.CreateProductValidIff | src/product/dto/create-product.dto.ts:11-31 | valid exactly when the name has 1 to 200 characters, the description (if any) at most 1000, the price is a number, the category a non-empty string, the image URL (if any) a string and the specifications (if any) an array |
| Validation.AnyPriceAnySpecifications | src/product/dto/create-product.dto.ts:20-31 | any price, negative included, and any array contents pass |
| Validation.SearchValidIff | src/product/dto/search-product.dto.ts:9-45 | valid exactly when the text fields are strings when present and the bounds are numbers of at least 0 when present |
| Validation.SearchHasNoCrossFieldCheck | src/product/dto/search-product.dto.ts:33-45 | the empty query and a minimum above the maximum both pass |

## Left out

- **Framework machinery.** Prisma, HTTP, dependency injection and `async` are not modelled. Every awaited call is one atomic step; there is no concurrency.
- **The un-awaited `createOrder`.** In `orders.service.ts` the call to `createOrder` is not awaited. It is modelled as finishing before the cart is cleared.
- **Orders and their items.** An order and its items are one row.
- **Order item ids, specification row ids and `updatedAt`.** These are not modelled.
- **Product prices in the cart join.** They are the `prices` input. A product missing from it is a null product.
- **Database failures the tables do not decide.** These include a unique product name, a foreign-key restriction on deleting a product that cart lines or order items still reference, and connection errors. They are the `failure` input of product create, update and remove. (The foreign key from a cart line to its product is decided by the `products` input of the cart.)
- **Products.ProductRepository.Remove:** deleting the product's specifications along with it assumes the schema's cascading foreign key from Specification to Product. The Prisma schema is not part of this model. A restricting key would make the delete fail, and that failure is the `failure` input.
- **Partial failure during the sync.** A failure part-way through the specification delete or upserts is not modelled, and neither is the non-transactional state it would leave.
- **Cart services that are not modelled.**
  - `updateItemQuantity`, which only the cart tests call, is not part of this model. So the P2025 and P2026 cases of those tests are not modelled.
  - The cart service's `findCartWithItemsByUserId`, `getAllCartItemsByUserId` and `clearCart`, and the repository methods behind them, are not part of the source files of this model. They are modelled as `CartStore` functions and methods, from their use in `orders.service.ts` and from the cart tests.
- **Orders repository methods.** The service's `findOrderById` and `updateOrder` are modelled from their use in `orders.service.ts:60-79`.
- **Pass-throughs.** The service `search`, `findAll` and orders `findAll` pass straight through to the repository. The product repository's `findAll` is a plain listing. Only the repository versions are modelled.
- **Logging.** `console.log` in the roles guard is left out.
- **Cart.CartService.RemoveItem:** this is weaker than the documented behaviour. The code rethrows Prisma's P2025 unchanged instead of a NotFound, and the model follows the code.
- **Cart.CartStore.FindCartByUserId and Cart.CartService.HandleCart:** these state the cart's lines by membership and increasing ids, not by their exact order. Prisma gives no order for an included relation.
- **Products.ProductService.FindOne:** the service's own null check is not modelled as a separate branch. It cannot fire, because the repository already throws the same NotFound for a missing product.
- **Products.ProductRepository.Update:** null values in the patch are not modelled. Only present and absent fields are. `update-product.dto.ts` is not part of this model; the patch is taken to be the create body with every field optional.
- **Target shapes.** A unique-constraint target is a string, a list of strings, or absent. Other shapes (numbers, objects) are not modelled.
- **Rendered message text.** Messages are reason constructors, not rendered text. For example, the generic conflict's `'unknown'` rendering of an empty-string target is not distinguished.
- **Product specification bodies.** `product-specification.dto.ts` bounds each specification's name and value. This is not wired into the create or update body, because `@IsArray()` alone does not check the entries.
- **Validation.** The HTTP query string's conversion to numbers is not modelled. Lengths are counted in Dafny characters, which are Unicode scalar values. validator.js's `isLength` also counts a surrogate pair once, but it does not count the variation selectors U+FE0E and U+FE0F. The model counts them, so it differs only on strings that contain those selectors.
- **Numbers.** Floating-point prices and totals are integers (cents). Validator numbers are reals.

## Findings

| source | as written | input that shows it | evidently intended | confidence | as-written member | corrected member |
|---|---|---|---|---|---|---|
| src/product/product.service.ts:115-124 (also src/product/product.repository.ts:98-107) | names are counted in a plain object, `counts`. A name inherited from `Object.prototype` starts from a function, so `+ 1` concatenates a string and `> 1` is never true. | specifications named `["constructor", "constructor"]` | the repeated name is reported as a duplicate | not executed | ProductErrors.InheritedNameNotReported | ProductErrors.FirstDuplicate |
| src/product/product.service.ts:126 (also src/product/product.repository.ts:109) | `if (duplicateSpecName)` treats a found empty name as no duplicate | specifications named `["", ""]` | the repeated empty name is reported | not executed | ProductErrors.EmptyNameNotReported | ProductErrors.FirstDuplicate |

The classifiers, `ServiceConflict` and `CreateConflict`, use the corrected scan, `FirstRepeat`. `ProductErrors.ReportedAsWritten` models the code as written. `ProductErrors.AsWrittenAgreesOnOrdinaryNames` proves that the two agree on every list without inherited keys and empty names.
