/** The entities the order service reads and writes, as values.
    Identity columns other than the order id, timestamps and the client's
    profile details beyond names are not part of this model. */
module Models {

  /** A nullable reference or a FirstOrDefault lookup that found nothing. */
  datatype Option<+T> = None | Some(value: T) {
    /** `x ?? default` */
    function GetOr(default: T): T {
      match this
      case Some(v) => v
      case None => default
    }
  }

  /** C# `uint`: the type of a line's quantity. */
  type UInt32 = x: int | 0 <= x < 0x1_0000_0000

  /** The typed failures the order service raises (one per exception class). */
  datatype Failure =
    | OrderNotFound          // OrderNotFoundException
    | ProductNotFound        // ProductNotFoundException
    | ProductAlreadyExists   // ProductAlreadyExistsException
    | InvalidQuantity        // QuantityException
    | CurrencyNotFound       // CurrencyNotFoundException
    | NotImplemented         // the completion workflow's NotImplementedException

  /** The value of an operation, or the failure it raised. */
  datatype Result<+T> = Ok(value: T) | Err(error: Failure)

  /** What a `void` operation reports: it returned normally, or it raised. */
  datatype Outcome = Done | Failed(error: Failure)

  datatype OrderStatus = Initialized | Submited | Processing | Fulfilled

  datatype PaymentMethod = CreditCard | WireTransfer | PayPal | Bitcoin

  datatype Currency = Currency(currencyCode: string, shortSign: string, roundingDecimals: int)

  /** A catalog entry; `price` is a C# decimal, modelled as an unbounded `real`. */
  datatype Product = Product(code: string, name: string, description: string, price: real, currency: Currency)

  datatype Client = Client(clientCode: string, firstName: string, lastName: string)

  datatype Address = Address(country: string, city: string, addressLine: string, state: string, zip: string)

  datatype BillingInfo = BillingInfo(address: Address, paymentMethod: PaymentMethod)

  datatype ShippingInfo = ShippingInfo(address: Address)

  /** One product on an order, with the price and currency snapshotted when it was added. */
  datatype OrderLine = OrderLine(product: Product, quantity: UInt32, unitCost: real, currency: Currency)

  /** The basket aggregate. `orderLines` is `None` while the collection is null,
      which the service tells apart from an empty collection. */
  datatype Order = Order(
    orderId: int,
    client: Client,
    billingInfo: BillingInfo,
    shippingInfo: ShippingInfo,
    currency: Currency,
    discountRate: real,
    vatRate: real,
    orderStatus: OrderStatus,
    orderLines: Option<seq<OrderLine>>)
}
