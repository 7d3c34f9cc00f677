# OrderManagement basket service, modelled in Dafny

This project models the order service of the OrderManagement basket API
(`OrderManagement/Services/OrderService.cs`) and proves properties of it.
The service manages an order that is still in progress, called a basket:

- `Initialize` creates an order for a client. It reuses a registered client
  with the same client code, or stores the supplied one. It fails with
  CurrencyNotFound for an unknown currency code. There is also a
  same-address overload.
- `Add` adds a line for a catalog product.
- `Remove` deletes the line for a product.
- `SetQuantity` overwrites the quantity of a line.
- `ClearOut` deletes every line of the order.
- `Complete` hands the order to the completion workflow.
- `GetOrder` and `GetOrders` read orders.

Each operation checks its rules in a fixed order, then changes the stored
state and commits. A failure raised before the commit leaves nothing behind.
The failure order of each operation:

- `Initialize`: CurrencyNotFound only. It loads no order.
- `Add`: OrderNotFound, then ProductNotFound (no catalog product with the
  code), then ProductAlreadyExists.
- `Remove`: OrderNotFound, then ProductNotFound (a null line collection, or
  no line with the code).
- `SetQuantity`: QuantityException before any lookup, then OrderNotFound
  (no order, or a null line collection), then ProductNotFound.
- `ClearOut`: OrderNotFound, then ProductNotFound (a null line collection).
- `Complete`: OrderNotFound, then NotImplemented.

Files and modules:

- `models.dfy` (`Models`): the entities as datatypes. Money and rates are
  `real`: C# `decimal` is a base-10 type, so prices such as 0.1 are held
  exactly, and the model keeps that but drops its 28-29 digit precision and
  its overflow. A quantity is a `UInt32`. The
  exceptions become a `Failure` datatype. A null line collection is `None`,
  which is kept apart from an empty one.
- `linq.dfy` (`Linq`): the `Where(...).FirstOrDefault()` and
  `Where(...).Count()` queries the service runs.
- `order_lines.dfy` (`OrderLines`): the line collection. It holds the
  one-line-per-product invariant and the lookups by product code. It also
  holds the derived amount, the sum of quantity × unit cost; no discount or
  VAT is applied to it.
- `basket.dfy` (`Basket`): each operation as a function from the stored
  state (`Store`: the Orders table, the next identity, the Clients table and
  the two catalogs) to `Ok(new state)` or `Err(failure)`. Its `ensures`
  state the failure order, what a success changes and what it leaves alone,
  and that the store invariant `Valid` is kept. Because a failure carries no
  state, the unit of work is all-or-nothing by construction.
- `order_service.dfy` (`Services`): the class `OrderService`.
  Its fields hold the tables and its methods update them in place. Each
  method is proved to report the outcome and leave the state that the
  matching `Basket` function gives. `ClearOut` keeps the source's `foreach`:
  the loop deletes one line from the stored collection per iteration.
- `scenarios.dfy` (`Scenarios`): replays the order lifecycle of the
  integration test project.

Three behaviours of the code are easy to misread; the model follows the code:

- `Initialize` leaves the new order's line collection null (the object
  initializer at OrderService.cs:84-94 never sets it), not empty.
  So `Remove` and `ClearOut` on a fresh order raise ProductNotFound, while
  `Add` reads the null collection as empty.
- The quantity check in `SetQuantity` is `quantity <= 0` on an unsigned
  value, which means `quantity == 0`. `Add` does not check the quantity.
- On a null line collection `SetQuantity` raises OrderNotFound, where
  `Remove` and `ClearOut` raise ProductNotFound.

## Model

| member | source | states |
|---|---|---|
| `Linq.FirstOrDefault` | OrderManagement/Infrastructure/RepositoryBase.cs:62-65 | The result is an element of the sequence that satisfies the predicate. It is null exactly when no element does. |
| `Linq.Count` | OrderManagement/Services/OrderService.cs:47 | The count is at most the length. It is positive exactly when some element satisfies the predicate. |
| `Linq.FirstIndex` | OrderManagement/Infrastructure/RepositoryBase.cs:64 | The position returned is the first one whose element satisfies the predicate. None means no element does. |
| `OrderLines.Lines` | OrderManagement/Services/OrderService.cs:44 | `order.OrderLines ?? new List<OrderLine>()`: a null collection reads as empty, and a present one as itself. |
| `OrderLines.CountCode` | OrderManagement/Services/OrderService.cs:47 | `Where(x => x.Product.Code == code).Count()` is at most the number of lines, and is 0 exactly when no line carries the code. |
| `OrderLines.HasLine` | OrderManagement/Services/OrderService.cs:120 | `Where(code).Count() > 0` holds exactly when some line carries the product code. |
| `OrderLines.LineIndex` | OrderManagement/Services/OrderService.cs:149-151 | Returns a line with the code, or none exactly when no line has it. Under the invariant no other line has that code, which is the line `SingleOrDefault` returns. |
| `OrderLines.SingleMatch` | OrderManagement/Services/OrderService.cs:124 | Under the one-line-per-product invariant a code matches at most one line, so `Single()` and `SingleOrDefault()` never meet a second match. |
| `OrderLines.AppendLine` | OrderManagement/Services/OrderService.cs:47-55 | Appending a line for an absent product, priced in the order's currency, keeps both line invariants, and the product is then present. |
| `OrderLines.UpdateQuantity` | OrderManagement/Services/OrderService.cs:153 | Overwriting a line's quantity keeps both line invariants. |
| `OrderLines.RemoveLine` | OrderManagement/Services/OrderService.cs:124 | Removing a present code drops exactly one line, and an absent code changes nothing. Under the invariant, the result holds every other line, no line for the code, still one line per code, and the same currency. |
| `OrderLines.RemoveFirst` | OrderManagement/Services/OrderService.cs:176-179 | Deleting the line of the collection's first product leaves exactly the remaining lines. This is the step ClearOut's loop repeats. |
| `OrderLines.RemoveAppended` | OrderManagement/Services/OrderService.cs:47-55 | Removing the code of a line just appended for an absent product gives back the earlier collection. |
| `OrderLines.Total` | OrderManagement.Tests/IntegrationTests.cs:87 | The amount of no lines is 0 and of one line is its quantity × unit cost. When no unit cost is negative, the amount is non-negative and at least the cost of each line. |
| `OrderLines.OrderAmount` | OrderManagement.Tests/IntegrationTests.cs:87 | An order with a null or empty line collection has amount 0. With no negative unit cost the amount is non-negative. |
| `OrderLines.TotalAppend` | OrderManagement/Services/OrderService.cs:54-55 | Appending a line raises the amount by that line's quantity × unit cost. |
| `OrderLines.TotalUpdate` | OrderManagement/Services/OrderService.cs:153 | Replacing one line changes the amount by the new line's cost minus the old line's cost. |
| `OrderLines.TotalRemove` | OrderManagement/Services/OrderService.cs:124 | Removing one line lowers the amount by that line's cost. |
| `Basket.FindOrder` | OrderManagement/Services/OrderService.cs:41 | Gives the first position holding the order id, or none exactly when no order has that id. |
| `Basket.FindProduct` | OrderManagement/Services/OrderService.cs:45 | Gives a catalog product with the code, or null exactly when the catalog has none. |
| `Basket.FindCurrency` | OrderManagement/Services/OrderService.cs:82 | Gives a catalog currency with the code, or null exactly when there is none. |
| `Basket.FindClient` | OrderManagement/Services/OrderService.cs:81 | Gives a registered client with the client code, or null exactly when there is none. |
| `Basket.FindsEachOrder` | OrderManagement/Services/OrderService.cs:190-193 | In a valid store, looking up an order's own id finds that very order. |
| `Basket.Initialize` | OrderManagement/Services/OrderService.cs:76-102 | Fails with CurrencyNotFound exactly when the currency is unknown, and then adds no order. On success it appends one order with the next id. That id is fresh and non-zero. The order is Initialized, its line collection is null, and its currency, addresses, payment method, discount rate and VAT rate are the given ones. It reuses the registered client with the same code, or else stores the supplied one. The store invariant holds afterwards. |
| `Basket.Add` | OrderManagement/Services/OrderService.cs:37-69 | The checks run in this order: OrderNotFound, then ProductNotFound, then ProductAlreadyExists. It succeeds exactly when none of them fires. On success, a null collection counts as empty and exactly one line is appended: the given quantity (0 included), the catalog price and the order's currency. Earlier lines, other orders and the other fields are untouched. The amount grows by quantity × price, and the invariant is kept. |
| `Basket.Remove` | OrderManagement/Services/OrderService.cs:109-137 | Unknown order gives OrderNotFound. A null collection, or no line with the code, gives ProductNotFound. Otherwise exactly one line goes: the count drops by one, no line with the code remains, every other line stays, and the amount drops by the removed line's cost. Nothing else changes, and the invariant is kept. |
| `Basket.SetQuantity` | OrderManagement/Services/OrderService.cs:139-164 | Quantity 0 gives QuantityException before any lookup. An unknown order or a null collection gives OrderNotFound. No line with the code gives ProductNotFound. On success only the matching line's quantity becomes the new value; the line count and all other lines stay, and the amount changes by the line's cost difference. Nothing else changes, and the invariant is kept. |
| `Basket.ClearOut` | OrderManagement/Services/OrderService.cs:166-188 | Unknown order gives OrderNotFound, and a null collection gives ProductNotFound. On success the collection is empty (not null) and the amount is 0; nothing else changes. On an order whose collection is already empty the call changes nothing. The invariant is kept. |
| `Basket.ClearOutIdempotent` | OrderManagement/Services/OrderService.cs:170-181 | A second ClearOut after a successful one succeeds and changes nothing. |
| `Basket.AddTwiceFails` | OrderManagement/Services/OrderService.cs:47-51 | After a successful Add, adding the same product code to the same order fails with ProductAlreadyExists, whatever the quantity. |
| `Basket.AddThenRemove` | OrderManagement/Services/OrderService.cs:120-124 | For any store, removing the product just added restores the order's earlier lines. The whole store comes back unless the collection was null; then it becomes empty. |
| `Services.OrderService.constructor` | OrderManagement/Services/OrderService.cs:25-35 | Starts with no orders, the first identity 1, the given catalogs, client registry and configured VAT rate. The store invariant holds. |
| `Services.OrderService.Initialize` | OrderManagement/Services/OrderService.cs:76-102 | The returned id or failure, and the new tables, are those `Basket.Initialize` gives. On failure nothing changes. The invariant is kept. |
| `Services.OrderService.InitializeSameAddress` | OrderManagement/Services/OrderService.cs:104-107 | Behaves as `Initialize` with the shipping address equal to the billing address. |
| `Services.OrderService.Add` | OrderManagement/Services/OrderService.cs:37-69 | Reports the outcome `Basket.Add` gives and leaves its new state. If it raises, the state is untouched. The invariant is kept. |
| `Services.OrderService.Remove` | OrderManagement/Services/OrderService.cs:109-137 | Reports the outcome `Basket.Remove` gives and leaves its new state. If it raises, the state is untouched. The invariant is kept. |
| `Services.OrderService.SetQuantity` | OrderManagement/Services/OrderService.cs:139-164 | Reports the outcome `Basket.SetQuantity` gives and leaves its new state. If it raises, the state is untouched. The invariant is kept. |
| `Services.OrderService.ClearOut` | OrderManagement/Services/OrderService.cs:166-188 | Deletes the lines one by one, then clears the collection. It reports the outcome `Basket.ClearOut` gives and leaves its new state. If it raises, the state is untouched. The invariant is kept. |
| `Services.OrderService.Complete` | OrderManagement/Services/CompletionService.cs:19-25 | Always fails and changes nothing. The failure is OrderNotFound exactly when no order has the id, and NotImplemented otherwise. |
| `Services.OrderService.GetOrder` | OrderManagement/Services/OrderService.cs:190-193 | Gives a stored order with the id, or null exactly when no order has it. |
| `Services.OrderService.GetOrders` | OrderManagement/Services/OrderService.cs:195-198 | Lists every order `GetOrder` can find. Under the invariant, `GetOrder` on each listed order's id gives back that order. |
| `Scenarios.InitializeStep` | OrderManagement.Tests/IntegrationTests.cs:41-70 | Initializing client 4829 at one Berlin address in EUR with discount 0.1 over the seed catalog creates order 1 with a null line collection. |
| `Scenarios.AddFirstStep` | OrderManagement.Tests/IntegrationTests.cs:77 | Adding PRODUCT-1 × 2 gives the line (PRODUCT-1, 2, 100, EUR). |
| `Scenarios.AddSecondStep` | OrderManagement.Tests/IntegrationTests.cs:78 | Adding PRODUCT-2 × 3 appends the line (PRODUCT-2, 3, 200, EUR). |
| `Scenarios.SetQuantityStep` | OrderManagement.Tests/IntegrationTests.cs:79 | Setting PRODUCT-2 to 2 changes only that line's quantity. |
| `Scenarios.FinalAmount` | OrderManagement.Tests/IntegrationTests.cs:87 | The resulting order amount is 600. |
| `Scenarios.OrderLifecycle` | OrderManagement.Tests/IntegrationTests.cs:77-87 | Runs the lifecycle through the `OrderService` methods: the id is non-zero and the order amount is 600. |

## Left out

- Timestamps (`DateTime.UtcNow` on the order, its billing and shipping info, and each line) are not modelled. Consequently the difference that Add and Remove touch `order.Timestamp` while SetQuantity and ClearOut do not is not captured.
- The repositories, `UnitOfWork.Commit`, Entity Framework change tracking and `TransactionScope` are not modelled as such. The tables are fields of the service. A commit is the single point where a method's new state appears, and a raised failure leaves the state unchanged.
- The line repository is not a separate table. Deleting a line through it (OrderService.cs:176-179) is modelled as removing that line from the owning order's stored collection.
- Orders and lines are values held in the service's tables, not shared objects. Reference aliasing is not captured, for example the list assigned back to `order.OrderLines` in Add, or billing and shipping sharing one `Address` object.
- The InvalidOperationException that `Single()` and `SingleOrDefault()` would raise on a second matching line is not modelled, because the proved invariant makes it unreachable (`OrderLines.SingleMatch`). Remove and SetQuantity act on the first matching line.
- Concurrency, and lost updates between concurrent requests, are out of scope.
- Order ids are unbounded integers. The 32-bit identity column's overflow is not modelled.
- The configuration service is not modelled: its VAT rate is a constructor parameter of `OrderService`.
- The completion workflow's state transitions do not exist in the source (it throws NotImplementedException after the existence check). Only that check is modelled.
- Client profile fields (birth date, gender, contacts) and the ids of clients, addresses and currencies are not modelled. Neither are the HTTP controller, request DTOs, dependency injection and seeding.
- The `Order` and `OrderLine` entity classes, including the `OrderAmount` property, are not part of this model. The amount is defined as the sum of quantity × unit cost, which is what the integration test checks.
- C# `decimal` rounding to 28-29 significant digits and its OverflowException (for example quantity 4294967295 × price 1e20) are not modelled: `OrderLines.LineAmount`, `OrderLines.Total` and the amount clauses of `Basket.Add`, `Basket.Remove` and `Basket.SetQuantity` are exact, unbounded reals.
- `Basket.Initialize`: the `Order` entity class is not part of this model, so the null line collection of a new order rests on the object initializer at OrderService.cs:84-94 setting no collection. Entity Framework lazy loading (the proxies enabled at startup), which may hand a reloaded order a loaded, empty collection, is not modelled.
- `Scenarios.OrderLifecycle`: the integration test sends no payment method (the enum's default 0, which names no member); the scenario uses WireTransfer.
