/** The order service: one object holding the repositories' contents, whose
    operations load an order, check the business rules, change the order's
    line collection in place and commit. Each operation is proved against
    the corresponding function of `Basket`. */
module Services {
  import opened Models
  import opened OrderLines
  import Basket

  /** A void operation reported `r` and left `after`, exactly as `spec`
      (its meaning on the state `before`) says: the new state if it
      succeeded, or the failure and the untouched state if it raised. */
  predicate Commits(before: Basket.Store, spec: Result<Basket.Store>, r: Outcome, after: Basket.Store) {
    match spec
    case Ok(s') => r == Done && after == s'
    case Err(e) => r == Failed(e) && after == before
  }

  class OrderService {
    /** The Orders table, in insertion order. */
    var orders: seq<Order>
    /** The identity the database assigns to the next inserted order. */
    var nextId: int
    /** The Clients table; Initialize inserts a client it does not find. */
    var clients: seq<Client>
    /** The read-only catalogs. */
    const products: seq<Product>
    const currencies: seq<Currency>
    /** What the configuration service's GetVatRate returns. */
    const vatRate: real

    function State(): Basket.Store
      reads this
    {
      Basket.Store(orders, nextId, clients, products, currencies)
    }

    ghost predicate Valid()
      reads this
    {
      Basket.Valid(State())
    }

    constructor (products: seq<Product>, currencies: seq<Currency>, clients: seq<Client>, vatRate: real)
      ensures Valid()
      ensures State() == Basket.Store([], 1, clients, products, currencies)
      ensures this.vatRate == vatRate
    {
      this.orders := [];
      this.nextId := 1;
      this.clients := clients;
      this.products := products;
      this.currencies := currencies;
      this.vatRate := vatRate;
    }

    /** Creates an order and returns its id. */
    method Initialize(client: Client, shippingAddress: Address, billingAddress: Address,
                      paymentMethod: PaymentMethod, currencyCode: string, discountRate: real)
      returns (r: Result<int>)
      requires Valid()
      modifies this
      ensures Valid()
      ensures match Basket.Initialize(old(State()), client, shippingAddress, billingAddress,
                                      paymentMethod, currencyCode, discountRate, vatRate)
              case Ok(c) => r == Ok(c.orderId) && State() == c.store
              case Err(e) => r == Err(e) && State() == old(State())
    {
      ghost var spec := Basket.Initialize(State(), client, shippingAddress, billingAddress,
                                          paymentMethod, currencyCode, discountRate, vatRate);
      var existingClient := Basket.FindClient(clients, client.clientCode);
      var currency := Basket.FindCurrency(currencies, currencyCode);
      if currency.None? {
        return Err(CurrencyNotFound);
      }
      var order := Order(nextId, existingClient.GetOr(client),
                         BillingInfo(billingAddress, paymentMethod), ShippingInfo(shippingAddress),
                         currency.value, discountRate, vatRate, Initialized, None);
      if existingClient.None? {
        clients := clients + [client];
      }
      orders := orders + [order];
      r := Ok(nextId);
      nextId := nextId + 1;
      assert spec == Ok(Basket.Created(order.orderId, State()));
    }

    /** The same-address overload: billing and shipping go to one address. */
    method InitializeSameAddress(client: Client, address: Address, paymentMethod: PaymentMethod,
                                 currencyCode: string, discountRate: real)
      returns (r: Result<int>)
      requires Valid()
      modifies this
      ensures Valid()
      ensures match Basket.Initialize(old(State()), client, address, address,
                                      paymentMethod, currencyCode, discountRate, vatRate)
              case Ok(c) => r == Ok(c.orderId) && State() == c.store
              case Err(e) => r == Err(e) && State() == old(State())
    {
      r := Initialize(client, address, address, paymentMethod, currencyCode, discountRate);
    }

    /** Adds a line for `productCode` with `quantity` to the order. */
    method Add(orderId: int, productCode: string, quantity: UInt32) returns (r: Outcome)
      requires Valid()
      modifies this
      ensures Valid()
      ensures Commits(old(State()), Basket.Add(old(State()), orderId, productCode, quantity), r, State())
    {
      var found := Basket.FindOrder(orders, orderId);
      if found.None? {
        return Failed(OrderNotFound);
      }
      var order := orders[found.value];
      var orderLines := Lines(order);
      var item := Basket.FindProduct(products, productCode);
      if item.None? {
        return Failed(ProductNotFound);
      }
      if HasLine(orderLines, productCode) {
        return Failed(ProductAlreadyExists);
      }
      orderLines := orderLines + [OrderLine(item.value, quantity, item.value.price, order.currency)];
      orders := orders[found.value := order.(orderLines := Some(orderLines))];
      r := Done;
    }

    /** Removes the order's line for `productCode`. */
    method Remove(orderId: int, productCode: string) returns (r: Outcome)
      requires Valid()
      modifies this
      ensures Valid()
      ensures Commits(old(State()), Basket.Remove(old(State()), orderId, productCode), r, State())
    {
      var found := Basket.FindOrder(orders, orderId);
      if found.None? {
        return Failed(OrderNotFound);
      }
      var order := orders[found.value];
      if order.orderLines.None? {
        return Failed(ProductNotFound);
      }
      if !HasLine(order.orderLines.value, productCode) {
        return Failed(ProductNotFound);
      }
      var orderLines := RemoveLine(order.orderLines.value, productCode);
      orders := orders[found.value := order.(orderLines := Some(orderLines))];
      r := Done;
    }

    /** Sets the quantity of the order's line for `productCode`. */
    method SetQuantity(orderId: int, productCode: string, quantity: UInt32) returns (r: Outcome)
      requires Valid()
      modifies this
      ensures Valid()
      ensures Commits(old(State()), Basket.SetQuantity(old(State()), orderId, productCode, quantity), r, State())
    {
      if quantity == 0 {
        return Failed(InvalidQuantity);
      }
      var found := Basket.FindOrder(orders, orderId);
      if found.None? || orders[found.value].orderLines.None? {
        return Failed(OrderNotFound);
      }
      var order := orders[found.value];
      var orderLines := order.orderLines.value;
      var k := LineIndex(orderLines, productCode);
      if k.None? {
        return Failed(ProductNotFound);
      }
      orderLines := orderLines[k.value := orderLines[k.value].(quantity := quantity)];
      orders := orders[found.value := order.(orderLines := Some(orderLines))];
      r := Done;
    }

    /** Deletes every line of the order one by one, then clears its collection. */
    method ClearOut(orderId: int) returns (r: Outcome)
      requires Valid()
      modifies this
      ensures Valid()
      ensures Commits(old(State()), Basket.ClearOut(old(State()), orderId), r, State())
    {
      var found := Basket.FindOrder(orders, orderId);
      if found.None? {
        return Failed(OrderNotFound);
      }
      var i := found.value;
      if orders[i].orderLines.None? {
        return Failed(ProductNotFound);
      }
      var orderLines := orders[i].orderLines.value;
      assert State() == Basket.SetLines(old(State()), i, orderLines[0..]);
      for k := 0 to |orderLines|
        invariant State() == Basket.SetLines(old(State()), i, orderLines[k..])
      {
        // the line repository deletes this line from the order's stored collection
        var stored := orders[i].orderLines.value;
        assert stored[0] == orderLines[k];
        RemoveFirst(stored);
        assert stored[1..] == orderLines[k + 1..];
        orders := orders[i := orders[i].(orderLines := Some(RemoveLine(stored, orderLines[k].product.code)))];
      }
      orders := orders[i := orders[i].(orderLines := Some([]))];
      r := Done;
    }

    /** Hands the order to the completion workflow, which checks that it
        exists and otherwise is not implemented; nothing changes. */
    method Complete(orderId: int) returns (r: Outcome)
      ensures r.Failed?
      ensures r.error == OrderNotFound <==> GetOrder(orderId).None?
      ensures GetOrder(orderId).Some? ==> r.error == NotImplemented
    {
      var order := GetOrder(orderId);
      if order.None? {
        return Failed(OrderNotFound);
      }
      r := Failed(NotImplemented);
    }

    /** The order with id `orderId`, or null. */
    function GetOrder(orderId: int): (r: Option<Order>)
      reads this
      ensures r.None? <==> forall i :: 0 <= i < |orders| ==> orders[i].orderId != orderId
      ensures r.Some? ==> r.value in orders && r.value.orderId == orderId
    {
      match Basket.FindOrder(orders, orderId)
      case None => None
      case Some(i) => Some(orders[i])
    }

    /** Every order, in table order. */
    function GetOrders(): (r: seq<Order>)
      reads this
      ensures forall id :: GetOrder(id).Some? ==> GetOrder(id).value in r
      ensures Valid() ==> forall i :: 0 <= i < |r| ==> GetOrder(r[i].orderId) == Some(r[i])
    {
      assert Valid() ==> forall i :: 0 <= i < |orders| ==> Basket.FindOrder(orders, orders[i].orderId) == Some(i) by {
        if Valid() {
          Basket.FindsEachOrder(State());
        }
      }
      orders
    }
  }
}
