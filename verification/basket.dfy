/** The basket operations of the order service, each as a function from the
    persisted state before the call to its result. An operation that raises
    returns `Err` and no new state, which is how the all-or-nothing unit of
    work (load, check, mutate, commit) appears here: nothing is committed
    unless every check passed. */
module Basket {
  import opened Models
  import opened Linq
  import opened OrderLines

  /** What the repositories hold: the Orders table in insertion order, the
      identity the database gives the next order, the Clients table, and the
      read-only Products and Currencies catalogs. */
  datatype Store = Store(
    orders: seq<Order>,
    nextId: int,
    clients: seq<Client>,
    products: seq<Product>,
    currencies: seq<Currency>)

  /** A successful Initialize: the new order's id and the committed state. */
  datatype Created = Created(orderId: int, store: Store)

  /** The aggregate invariants of one order. */
  predicate OrderValid(o: Order) {
    UniqueCodes(Lines(o)) && PricedIn(Lines(o), o.currency)
  }

  /** The store's invariant: ids are positive, below the next identity and
      increasing in table order (so each id names one order), and every
      order keeps its aggregate invariants. */
  predicate Valid(s: Store) {
    && s.nextId >= 1
    && (forall i :: 0 <= i < |s.orders| ==> 1 <= s.orders[i].orderId < s.nextId)
    && (forall i :: 0 <= i < |s.orders| ==> OrderValid(s.orders[i]))
    && (forall i, j :: 0 <= i < j < |s.orders| ==> s.orders[i].orderId < s.orders[j].orderId)
  }

  /** `_orderRepository.Get(x => x.OrderId == orderId)`, as a position in the table. */
  function FindOrder(orders: seq<Order>, orderId: int): (r: Option<nat>)
    ensures r.None? <==> forall i :: 0 <= i < |orders| ==> orders[i].orderId != orderId
    ensures r.Some? ==> r.value < |orders| && orders[r.value].orderId == orderId
    ensures r.Some? ==> forall i :: 0 <= i < r.value ==> orders[i].orderId != orderId
  {
    FirstIndex(orders, (o: Order) => o.orderId == orderId)
  }

  /** `_productRepository.Get(x => x.Code == productCode)`. */
  function FindProduct(products: seq<Product>, code: string): (r: Option<Product>)
    ensures r.None? <==> forall p :: p in products ==> p.code != code
    ensures r.Some? ==> r.value in products && r.value.code == code
  {
    FirstOrDefault(products, (p: Product) => p.code == code)
  }

  /** `_currencyRepository.Get(x => x.CurrencyCode == currencyCode)`. */
  function FindCurrency(currencies: seq<Currency>, code: string): (r: Option<Currency>)
    ensures r.None? <==> forall c :: c in currencies ==> c.currencyCode != code
    ensures r.Some? ==> r.value in currencies && r.value.currencyCode == code
  {
    FirstOrDefault(currencies, (c: Currency) => c.currencyCode == code)
  }

  /** `_clientRepository.Get(x => x.ClientCode == client.ClientCode)`. */
  function FindClient(clients: seq<Client>, code: string): (r: Option<Client>)
    ensures r.None? <==> forall c :: c in clients ==> c.clientCode != code
    ensures r.Some? ==> r.value in clients && r.value.clientCode == code
  {
    FirstOrDefault(clients, (c: Client) => c.clientCode == code)
  }

  /** The store with the line collection of the order at position `i` replaced. */
  function SetLines(s: Store, i: nat, ls: seq<OrderLine>): Store
    requires i < |s.orders|
  {
    s.(orders := s.orders[i := s.orders[i].(orderLines := Some(ls))])
  }

  /** `s'` differs from `s` at most in the line collection of the order at `i`. */
  predicate OnlyLinesChanged(s: Store, s': Store, i: nat) {
    && i < |s.orders|
    && |s'.orders| == |s.orders|
    && s'.nextId == s.nextId
    && s'.clients == s.clients
    && s'.products == s.products
    && s'.currencies == s.currencies
    && (forall j :: 0 <= j < |s.orders| && j != i ==> s'.orders[j] == s.orders[j])
    && s'.orders[i].(orderLines := s.orders[i].orderLines) == s.orders[i]
  }

  /** In a valid store ids are unique, so looking up an order's own id
      finds that order. */
  lemma FindsEachOrder(s: Store)
    requires Valid(s)
    ensures forall i :: 0 <= i < |s.orders| ==> FindOrder(s.orders, s.orders[i].orderId) == Some(i)
  {
    forall i | 0 <= i < |s.orders| ensures FindOrder(s.orders, s.orders[i].orderId) == Some(i) {
      var r := FindOrder(s.orders, s.orders[i].orderId);
      assert r.Some?;
      assert s.orders[r.value].orderId == s.orders[i].orderId;
    }
  }

  /** Replacing one order's lines with a collection that keeps the aggregate
      invariants keeps the store's invariant, and every id still finds the
      same position. */
  lemma SetLinesValid(s: Store, i: nat, ls: seq<OrderLine>)
    requires i < |s.orders|
    ensures OnlyLinesChanged(s, SetLines(s, i, ls), i)
    ensures forall id :: FindOrder(SetLines(s, i, ls).orders, id) == FindOrder(s.orders, id)
    ensures Valid(s) && UniqueCodes(ls) && PricedIn(ls, s.orders[i].currency) ==> Valid(SetLines(s, i, ls))
  {
    var s' := SetLines(s, i, ls);
    assert forall j :: 0 <= j < |s.orders| ==> s'.orders[j].orderId == s.orders[j].orderId;
    forall id ensures FindOrder(s'.orders, id) == FindOrder(s.orders, id) {
      var a, b := FindOrder(s'.orders, id), FindOrder(s.orders, id);
      if a.Some? && b.Some? {
        assert !(a.value < b.value) && !(b.value < a.value);
      }
    }
  }

  /** Appending an order with no lines under the next identity keeps the
      store valid; the new id was not in use and now finds the new order. */
  lemma AppendOrder(s: Store, order: Order, clients: seq<Client>)
    requires Valid(s) && order.orderId == s.nextId && order.orderLines == None
    ensures var s' := s.(orders := s.orders + [order], nextId := s.nextId + 1, clients := clients);
            && Valid(s')
            && FindOrder(s.orders, order.orderId).None?
            && FindOrder(s'.orders, order.orderId) == Some(|s.orders|)
  {
    var s' := s.(orders := s.orders + [order], nextId := s.nextId + 1, clients := clients);
    assert s'.orders[|s.orders|] == order;
    forall i | 0 <= i < |s'.orders| ensures OrderValid(s'.orders[i]) {
      if i < |s.orders| { assert s'.orders[i] == s.orders[i]; }
    }
  }

  /** Creates an order for `client`, reusing the registered client with the
      same code if there is one, priced in the currency named by `currencyCode`. */
  function Initialize(s: Store, client: Client, shippingAddress: Address, billingAddress: Address,
                      paymentMethod: PaymentMethod, currencyCode: string, discountRate: real,
                      vatRate: real): (r: Result<Created>)
    ensures r.Err? <==> FindCurrency(s.currencies, currencyCode).None?
    ensures r.Err? ==> r.error == CurrencyNotFound
    ensures r.Ok? ==>
      var s' := r.value.store;
      && r.value.orderId == s.nextId
      && |s'.orders| == |s.orders| + 1
      && s'.orders[..|s.orders|] == s.orders
      && s'.nextId == s.nextId + 1
      && s'.products == s.products
      && s'.currencies == s.currencies
    ensures r.Ok? ==>
      var o := r.value.store.orders[|s.orders|];
      && o.orderId == r.value.orderId
      && o.orderStatus == Initialized
      && o.orderLines == None && Lines(o) == []
      && o.currency in s.currencies && o.currency.currencyCode == currencyCode
      && o.billingInfo == BillingInfo(billingAddress, paymentMethod)
      && o.shippingInfo == ShippingInfo(shippingAddress)
      && o.discountRate == discountRate
      && o.vatRate == vatRate
    ensures r.Ok? && FindClient(s.clients, client.clientCode).Some? ==>
      && r.value.store.orders[|s.orders|].client == FindClient(s.clients, client.clientCode).value
      && r.value.store.clients == s.clients
    ensures r.Ok? && FindClient(s.clients, client.clientCode).None? ==>
      && r.value.store.orders[|s.orders|].client == client
      && r.value.store.clients == s.clients + [client]
    ensures Valid(s) && r.Ok? ==>
      && Valid(r.value.store)
      && r.value.orderId != 0
      && FindOrder(s.orders, r.value.orderId).None?
      && FindOrder(r.value.store.orders, r.value.orderId) == Some(|s.orders|)
  {
    var existingClient := FindClient(s.clients, client.clientCode);
    match FindCurrency(s.currencies, currencyCode)
    case None => Err(CurrencyNotFound)
    case Some(currency) =>
      var order := Order(s.nextId, existingClient.GetOr(client),
                         BillingInfo(billingAddress, paymentMethod), ShippingInfo(shippingAddress),
                         currency, discountRate, vatRate, Initialized, None);
      var s' := s.(orders := s.orders + [order],
                   nextId := s.nextId + 1,
                   clients := if existingClient.None? then s.clients + [client] else s.clients);
      assert s'.orders[|s.orders|] == order;
      assert Valid(s) ==> Valid(s') && FindOrder(s.orders, s.nextId).None?
                          && FindOrder(s'.orders, s.nextId) == Some(|s.orders|) by {
        if Valid(s) {
          AppendOrder(s, order, s'.clients);
        }
      }
      Ok(Created(s.nextId, s'))
  }

  /** Appends a line for a catalog product not yet on the order. */
  function Add(s: Store, orderId: int, productCode: string, quantity: UInt32): (r: Result<Store>)
    ensures FindOrder(s.orders, orderId).None? ==> r == Err(OrderNotFound)
    ensures FindOrder(s.orders, orderId).Some? && FindProduct(s.products, productCode).None? ==>
      r == Err(ProductNotFound)
    ensures FindOrder(s.orders, orderId).Some? && FindProduct(s.products, productCode).Some? &&
            HasLine(Lines(s.orders[FindOrder(s.orders, orderId).value]), productCode) ==>
      r == Err(ProductAlreadyExists)
    ensures r.Ok? <==>
      && FindOrder(s.orders, orderId).Some?
      && FindProduct(s.products, productCode).Some?
      && !HasLine(Lines(s.orders[FindOrder(s.orders, orderId).value]), productCode)
    ensures r.Ok? ==> OnlyLinesChanged(s, r.value, FindOrder(s.orders, orderId).value)
    ensures r.Ok? ==>
      var i := FindOrder(s.orders, orderId).value;
      var p := FindProduct(s.products, productCode).value;
      var o, o' := s.orders[i], r.value.orders[i];
      && o'.orderLines.Some?
      && |Lines(o')| == |Lines(o)| + 1
      && Lines(o')[..|Lines(o)|] == Lines(o)
      && Lines(o')[|Lines(o)|] == OrderLine(p, quantity, p.price, o.currency)
      && HasLine(Lines(o'), productCode)
      && OrderAmount(o') == OrderAmount(o) + LineAmount(OrderLine(p, quantity, p.price, o.currency))
    ensures Valid(s) && r.Ok? ==> Valid(r.value)
  {
    match FindOrder(s.orders, orderId)
    case None => Err(OrderNotFound)
    case Some(i) =>
      var order := s.orders[i];
      var orderLines := Lines(order);
      match FindProduct(s.products, productCode)
      case None => Err(ProductNotFound)
      case Some(item) =>
        if HasLine(orderLines, productCode) then Err(ProductAlreadyExists)
        else
          var line := OrderLine(item, quantity, item.price, order.currency);
          TotalAppend(orderLines, line);
          assert (orderLines + [line])[|orderLines|].product.code == productCode;
          AppendLine(orderLines, line, order.currency);
          SetLinesValid(s, i, orderLines + [line]);
          Ok(SetLines(s, i, orderLines + [line]))
  }

  /** Deletes the order's line for `productCode`. */
  function Remove(s: Store, orderId: int, productCode: string): (r: Result<Store>)
    ensures FindOrder(s.orders, orderId).None? ==> r == Err(OrderNotFound)
    ensures FindOrder(s.orders, orderId).Some? &&
            s.orders[FindOrder(s.orders, orderId).value].orderLines.None? ==>
      r == Err(ProductNotFound)
    ensures FindOrder(s.orders, orderId).Some? &&
            !HasLine(Lines(s.orders[FindOrder(s.orders, orderId).value]), productCode) ==>
      r == Err(ProductNotFound)
    ensures r.Ok? <==>
      FindOrder(s.orders, orderId).Some? &&
      HasLine(Lines(s.orders[FindOrder(s.orders, orderId).value]), productCode)
    ensures r.Ok? ==> OnlyLinesChanged(s, r.value, FindOrder(s.orders, orderId).value)
    ensures r.Ok? ==>
      var i := FindOrder(s.orders, orderId).value;
      var o, o' := s.orders[i], r.value.orders[i];
      && o'.orderLines.Some?
      && |Lines(o')| == |Lines(o)| - 1
      && (forall l :: l in Lines(o') ==> l in Lines(o))
      && OrderAmount(o') ==
         OrderAmount(o) - LineAmount(Lines(o)[LineIndex(Lines(o), productCode).value])
      && (Valid(s) ==>
            && Valid(r.value)
            && !HasLine(Lines(o'), productCode)
            && (forall l :: l in Lines(o) && l.product.code != productCode ==> l in Lines(o')))
  {
    match FindOrder(s.orders, orderId)
    case None => Err(OrderNotFound)
    case Some(i) =>
      var order := s.orders[i];
      match order.orderLines
      case None => Err(ProductNotFound)
      case Some(orderLines) =>
        if !HasLine(orderLines, productCode) then Err(ProductNotFound)
        else
          var k := LineIndex(orderLines, productCode).value;
          TotalRemove(orderLines, k);
          SetLinesValid(s, i, RemoveLine(orderLines, productCode));
          Ok(SetLines(s, i, RemoveLine(orderLines, productCode)))
  }

  /** Overwrites the quantity of the order's line for `productCode`. */
  function SetQuantity(s: Store, orderId: int, productCode: string, quantity: UInt32): (r: Result<Store>)
    ensures quantity == 0 ==> r == Err(InvalidQuantity)
    ensures quantity != 0 && FindOrder(s.orders, orderId).None? ==> r == Err(OrderNotFound)
    ensures quantity != 0 && FindOrder(s.orders, orderId).Some? &&
            s.orders[FindOrder(s.orders, orderId).value].orderLines.None? ==>
      r == Err(OrderNotFound)
    ensures quantity != 0 && FindOrder(s.orders, orderId).Some? &&
            s.orders[FindOrder(s.orders, orderId).value].orderLines.Some? &&
            !HasLine(Lines(s.orders[FindOrder(s.orders, orderId).value]), productCode) ==>
      r == Err(ProductNotFound)
    ensures r.Ok? <==>
      && quantity != 0
      && FindOrder(s.orders, orderId).Some?
      && s.orders[FindOrder(s.orders, orderId).value].orderLines.Some?
      && HasLine(Lines(s.orders[FindOrder(s.orders, orderId).value]), productCode)
    ensures r.Ok? ==> OnlyLinesChanged(s, r.value, FindOrder(s.orders, orderId).value)
    ensures r.Ok? ==>
      var i := FindOrder(s.orders, orderId).value;
      var o, o' := s.orders[i], r.value.orders[i];
      var k := LineIndex(Lines(o), productCode).value;
      && o'.orderLines.Some?
      && |Lines(o')| == |Lines(o)|
      && Lines(o')[k].quantity == quantity
      && Lines(o')[k].(quantity := Lines(o)[k].quantity) == Lines(o)[k]
      && OrderAmount(o') == OrderAmount(o) - LineAmount(Lines(o)[k]) + LineAmount(Lines(o')[k])
      && (Valid(s) ==>
            && Valid(r.value)
            && (forall j :: 0 <= j < |Lines(o)| && Lines(o)[j].product.code != productCode ==>
                  Lines(o')[j] == Lines(o)[j]))
  {
    if quantity == 0 then Err(InvalidQuantity)
    else match FindOrder(s.orders, orderId)
      case None => Err(OrderNotFound)
      case Some(i) =>
        var order := s.orders[i];
        match order.orderLines
        case None => Err(OrderNotFound)
        case Some(orderLines) =>
          match LineIndex(orderLines, productCode)
          case None => Err(ProductNotFound)
          case Some(k) =>
            var line := orderLines[k].(quantity := quantity);
            TotalUpdate(orderLines, k, line);
            UpdateQuantity(orderLines, k, quantity, order.currency);
            SetLinesValid(s, i, orderLines[k := line]);
            Ok(SetLines(s, i, orderLines[k := line]))
  }

  /** Deletes every line of the order, leaving it an empty (non-null) collection. */
  function ClearOut(s: Store, orderId: int): (r: Result<Store>)
    ensures FindOrder(s.orders, orderId).None? ==> r == Err(OrderNotFound)
    ensures FindOrder(s.orders, orderId).Some? &&
            s.orders[FindOrder(s.orders, orderId).value].orderLines.None? ==>
      r == Err(ProductNotFound)
    ensures r.Ok? <==>
      FindOrder(s.orders, orderId).Some? &&
      s.orders[FindOrder(s.orders, orderId).value].orderLines.Some?
    ensures r.Ok? ==> OnlyLinesChanged(s, r.value, FindOrder(s.orders, orderId).value)
    ensures r.Ok? ==>
      var i := FindOrder(s.orders, orderId).value;
      && r.value.orders[i].orderLines == Some([])
      && OrderAmount(r.value.orders[i]) == 0.0
    ensures FindOrder(s.orders, orderId).Some? &&
            s.orders[FindOrder(s.orders, orderId).value].orderLines == Some([]) ==>
      r == Ok(s)
    ensures Valid(s) && r.Ok? ==> Valid(r.value)
  {
    match FindOrder(s.orders, orderId)
    case None => Err(OrderNotFound)
    case Some(i) =>
      if s.orders[i].orderLines.None? then Err(ProductNotFound)
      else
        assert s.orders[i].orderLines == Some([]) ==> s.orders[i := s.orders[i].(orderLines := Some([]))] == s.orders;
        SetLinesValid(s, i, []);
        Ok(SetLines(s, i, []))
  }

  /** Clearing out twice is the same as clearing out once. */
  lemma ClearOutIdempotent(s: Store, orderId: int)
    requires ClearOut(s, orderId).Ok?
    ensures ClearOut(ClearOut(s, orderId).value, orderId) == ClearOut(s, orderId)
  {
    var s' := ClearOut(s, orderId).value;
    var i := FindOrder(s.orders, orderId).value;
    assert FindOrder(s'.orders, orderId) == Some(i) by {
      assert forall j :: 0 <= j < |s.orders| ==> s'.orders[j].orderId == s.orders[j].orderId;
    }
  }

  /** Adding is not an upsert: a second Add of the same product code to the
      same order raises ProductAlreadyExists, whatever the quantity. */
  lemma AddTwiceFails(s: Store, orderId: int, productCode: string, quantity: UInt32, again: UInt32)
    requires Add(s, orderId, productCode, quantity).Ok?
    ensures Add(Add(s, orderId, productCode, quantity).value, orderId, productCode, again)
            == Err(ProductAlreadyExists)
  {
    var i := FindOrder(s.orders, orderId).value;
    var s' := Add(s, orderId, productCode, quantity).value;
    assert FindOrder(s'.orders, orderId) == Some(i) by {
      assert forall j :: 0 <= j < |s.orders| ==> s'.orders[j].orderId == s.orders[j].orderId;
    }
  }

  /** Removing the product just added gives back the order's earlier lines
      (an empty collection where there was a null one), and otherwise the
      same store. */
  lemma AddThenRemove(s: Store, orderId: int, productCode: string, quantity: UInt32)
    requires Add(s, orderId, productCode, quantity).Ok?
    ensures var i := FindOrder(s.orders, orderId).value;
            Remove(Add(s, orderId, productCode, quantity).value, orderId, productCode)
            == Ok(SetLines(s, i, Lines(s.orders[i])))
    ensures s.orders[FindOrder(s.orders, orderId).value].orderLines.Some? ==>
            Remove(Add(s, orderId, productCode, quantity).value, orderId, productCode) == Ok(s)
  {
    var i := FindOrder(s.orders, orderId).value;
    var s' := Add(s, orderId, productCode, quantity).value;
    var ls := Lines(s.orders[i]);
    var ls' := Lines(s'.orders[i]);
    assert FindOrder(s'.orders, orderId) == Some(i) by {
      assert forall j :: 0 <= j < |s.orders| ==> s'.orders[j].orderId == s.orders[j].orderId;
    }
    assert ls' == ls + [ls'[|ls|]];
    RemoveAppended(ls, ls'[|ls|]);
    assert s'.orders[i := s'.orders[i].(orderLines := Some(ls))] == s.orders[i := s.orders[i].(orderLines := Some(ls))];
    if s.orders[i].orderLines.Some? {
      assert s.orders[i := s.orders[i].(orderLines := Some(ls))] == s.orders;
    }
  }
}
