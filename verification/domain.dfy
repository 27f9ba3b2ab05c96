/**
 * The entities and value records the core works on, and the errors its
 * operations throw.
 *
 * Decimal amounts are integers counting thousandths of a currency unit (the
 * product price column is decimal(10,3)); clock readings are milliseconds.
 */
module Domain {
  import opened Wrappers

  /** A decimal amount in thousandths: 12.5 is 12500. */
  type Money = int

  /** A clock reading or a duration, in milliseconds. */
  type Millis = int

  /** The number of thousandths in one currency unit. */
  const UNIT: Money := 1000

  datatype Guid = Guid(value: nat)

  /** No two rows share a key: what a primary key guarantees of a table. */
  ghost predicate UniqueKeys<T, K>(rows: seq<T>, keyOf: T -> K)
  {
    forall i, j :: 0 <= i < j < |rows| ==> keyOf(rows[i]) != keyOf(rows[j])
  }

  function ProductId(p: Product): int { p.id }
  function DeliveryMethodId(d: DeliveryMethod): int { d.id }
  function OrderId(o: Order): Guid { o.id }

  datatype Product = Product(
    id: int,
    name: string,
    description: string,
    pictureUrl: Option<string>,
    price: Money,
    brandId: int,
    typeId: int)

  /** Only the fields the core reads. */
  datatype DeliveryMethod = DeliveryMethod(id: int, price: Money)

  datatype OrderAddress = OrderAddress(
    firstName: string,
    lastName: string,
    street: string,
    city: string,
    country: string)

  /** The product snapshot an order line keeps. */
  datatype ProductItemOrder = ProductItemOrder(productId: int, productName: string, pictureUrl: Option<string>)

  datatype OrderItem = OrderItem(product: ProductItemOrder, price: Money, quantity: int)

  /** The status an order starts in (the first member of the status enumeration). */
  const DEFAULT_ORDER_STATUS: int := 0

  /**
   * An order. `deliveryMethod` is the navigation property: absent unless the
   * row was loaded with it. `paymentIntentId` is the field the payment-intent
   * lookup filters on.
   */
  datatype Order = Order(
    id: Guid,
    userEmail: string,
    orderDate: Millis,
    orderAddress: OrderAddress,
    deliveryMethodId: int,
    deliveryMethod: Option<DeliveryMethod>,
    orderStatus: int,
    items: seq<OrderItem>,
    subTotal: Money,
    paymentIntentId: Option<string>)

  datatype BasketItem = BasketItem(
    id: int,
    name: string,
    pictureUrl: Option<string>,
    price: Money,
    quantity: int)

  /** The basket aggregate, stored whole under its id. */
  datatype CustomerBasket = CustomerBasket(
    id: string,
    items: seq<BasketItem>,
    clientSecret: Option<string>,
    paymentIntentId: Option<string>,
    deliveryMethodId: Option<int>,
    shippingPrice: Option<Money>)

  /** What the core's operations throw. */
  datatype Error =
    | BasketNotFound(key: string)
    | ProductNotFound(productId: int)
    | DeliveryMethodNotFound(deliveryMethodId: int)
    | NullableHasNoValue          // `.Value` read on an empty nullable
    | NullReference               // a navigation property that was not loaded
    | OverflowOnCast              // decimal to long conversion out of range
    | BasketProcessingFailed      // the generic exception of basket processing
    | InvalidCast(typeName: string)
    | CommitRejected              // the database refused the batch of changes

  /** A freshly constructed order: property initialisers only. */
  function NewOrder(id: Guid, now: Millis): (o: Order)
    ensures o.items == [] && o.subTotal == 0
    ensures o.orderDate == now && o.orderStatus == DEFAULT_ORDER_STATUS
    ensures o.deliveryMethod.None? && o.paymentIntentId.None?
  {
    Order(id, "", now, OrderAddress("", "", "", "", ""), 0, None, DEFAULT_ORDER_STATUS, [], 0, None)
  }

  /**
   * The order total: subtotal plus the price of the loaded delivery method;
   * reading the price of a navigation property that was not loaded throws.
   */
  function GetTotal(o: Order): (total: Result<Money, Error>)
    ensures total.Err? <==> o.deliveryMethod.None?
    ensures total.Ok? ==> total.value - o.subTotal == o.deliveryMethod.value.price
    ensures total.Ok? ==> (total.value >= o.subTotal <==> o.deliveryMethod.value.price >= 0)
    ensures total.Ok? && o.deliveryMethod.value.price == 0 ==> total.value == o.subTotal
  {
    match o.deliveryMethod
    case None => Err(NullReference)
    case Some(dm) => Ok(o.subTotal + dm.price)
  }

  /** For a fixed delivery method, a larger subtotal never gives a smaller total. */
  lemma GetTotalMonotone(o: Order, s1: Money, s2: Money)
    requires o.deliveryMethod.Some? && s1 <= s2
    ensures GetTotal(o.(subTotal := s1)).value <= GetTotal(o.(subTotal := s2)).value
  {
  }
}
