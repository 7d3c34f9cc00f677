/** The basket lifecycle the repository's integration test walks through,
    over the seed catalog (EUR, PRODUCT-1 at 100, PRODUCT-2 at 200). */
module Scenarios {
  import opened Models
  import opened OrderLines
  import Basket
  import opened Services

  function Eur(): Currency { Currency("EUR", "€", 2) }
  function Product1(): Product { Product("PRODUCT-1", "Product 1", "Test", 100.0, Eur()) }
  function Product2(): Product { Product("PRODUCT-2", "Product 2", "Test", 200.0, Eur()) }
  function Catalog(): seq<Product> { [Product1(), Product2()] }
  function John(): Client { Client("4829", "John", "Doe") }
  function Berlin(): Address { Address("DE", "Berlin", "Wittenauer Straße", "Berlin zzz", "10115") }

  /** The store holding only order 1, with the given line collection. */
  function WithOrder(vatRate: real, orderLines: Option<seq<OrderLine>>): Basket.Store {
    var order := Order(1, John(), BillingInfo(Berlin(), WireTransfer), ShippingInfo(Berlin()),
                       Eur(), 0.1, vatRate, Initialized, orderLines);
    Basket.Store([order], 2, [John()], Catalog(), [Eur()])
  }

  function Line1(): OrderLine { OrderLine(Product1(), 2, 100.0, Eur()) }
  function Line2(quantity: UInt32): OrderLine { OrderLine(Product2(), quantity, 200.0, Eur()) }

  lemma InitializeStep(vatRate: real)
    ensures Basket.Initialize(Basket.Store([], 1, [], Catalog(), [Eur()]), John(), Berlin(), Berlin(),
                              WireTransfer, "EUR", 0.1, vatRate)
            == Ok(Basket.Created(1, WithOrder(vatRate, None)))
  {
    var r := Basket.Initialize(Basket.Store([], 1, [], Catalog(), [Eur()]), John(), Berlin(), Berlin(),
                               WireTransfer, "EUR", 0.1, vatRate);
    assert Basket.FindCurrency([Eur()], "EUR") == Some(Eur());
    assert Basket.FindClient([], "4829") == None;
    var s1 := r.value.store;
    assert s1.orders == [s1.orders[0]];
    assert s1.orders[0] == WithOrder(vatRate, None).orders[0];
    assert s1.clients == [John()];
  }

  lemma AddFirstStep(vatRate: real)
    ensures Basket.Add(WithOrder(vatRate, None), 1, "PRODUCT-1", 2) == Ok(WithOrder(vatRate, Some([Line1()])))
  {
    var s1 := WithOrder(vatRate, None);
    assert Basket.FindOrder(s1.orders, 1) == Some(0);
    assert Basket.FindProduct(Catalog(), "PRODUCT-1") == Some(Product1()) by {
      assert Product2().code[8] != "PRODUCT-1"[8];
    }
    var s2 := Basket.Add(s1, 1, "PRODUCT-1", 2).value;
    assert Lines(s2.orders[0]) == [Line1()];
    assert s2.orders == [s2.orders[0]];
  }

  lemma AddSecondStep(vatRate: real)
    ensures Basket.Add(WithOrder(vatRate, Some([Line1()])), 1, "PRODUCT-2", 3)
            == Ok(WithOrder(vatRate, Some([Line1(), Line2(3)])))
  {
    var s2 := WithOrder(vatRate, Some([Line1()]));
    assert Basket.FindOrder(s2.orders, 1) == Some(0);
    assert Line1().product.code[8] != "PRODUCT-2"[8];
    assert Basket.FindProduct(Catalog(), "PRODUCT-2") == Some(Product2());
    assert !HasLine([Line1()], "PRODUCT-2");
    var s3 := Basket.Add(s2, 1, "PRODUCT-2", 3).value;
    assert Lines(s3.orders[0]) == [Line1(), Line2(3)];
    assert s3.orders == [s3.orders[0]];
  }

  lemma SetQuantityStep(vatRate: real)
    ensures Basket.SetQuantity(WithOrder(vatRate, Some([Line1(), Line2(3)])), 1, "PRODUCT-2", 2)
            == Ok(WithOrder(vatRate, Some([Line1(), Line2(2)])))
  {
    var s3 := WithOrder(vatRate, Some([Line1(), Line2(3)]));
    assert Basket.FindOrder(s3.orders, 1) == Some(0);
    assert Line1().product.code[8] != "PRODUCT-2"[8];
    assert LineIndex([Line1(), Line2(3)], "PRODUCT-2") == Some(1);
    var s4 := Basket.SetQuantity(s3, 1, "PRODUCT-2", 2).value;
    assert Lines(s4.orders[0]) == [Line1(), Line2(2)];
    assert s4.orders == [s4.orders[0]];
  }

  lemma FinalAmount(vatRate: real)
    ensures OrderAmount(WithOrder(vatRate, Some([Line1(), Line2(2)])).orders[0]) == 600.0
  {
    assert Total([Line2(2)]) == 400.0;
  }

  /** Initialize with one address, add PRODUCT-1 x 2 and PRODUCT-2 x 3, set
      PRODUCT-2 to 2: the order amount is 2 x 100 + 2 x 200. */
  method OrderLifecycle(vatRate: real) returns (id: int, amount: real)
    ensures id != 0
    ensures amount == 600.0
  {
    var service := new OrderService(Catalog(), [Eur()], [], vatRate);
    InitializeStep(vatRate);
    var created := service.InitializeSameAddress(John(), Berlin(), WireTransfer, "EUR", 0.1);
    id := created.value;
    AddFirstStep(vatRate);
    var r := service.Add(id, "PRODUCT-1", 2);
    AddSecondStep(vatRate);
    r := service.Add(id, "PRODUCT-2", 3);
    SetQuantityStep(vatRate);
    r := service.SetQuantity(id, "PRODUCT-2", 2);
    ghost var final := WithOrder(vatRate, Some([Line1(), Line2(2)]));
    assert service.State() == final;
    var order := service.GetOrder(id);
    assert order == Some(final.orders[0]);
    amount := OrderAmount(order.value);
    FinalAmount(vatRate);
  }
}
