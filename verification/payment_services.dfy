/**
 * The payment service: refreshes the basket's prices from the product table,
 * sets its shipping price from the chosen delivery method, computes the amount
 * to charge, creates or updates the gateway's payment intent and writes the
 * basket back.
 *
 * The payment gateway is not part of this model: what it answers to a new
 * intent is a parameter, and the call made to it is reported as a value.
 */
module PaymentServices {
  import opened Wrappers
  import opened Domain
  import opened Store
  import opened Repository
  import opened UnitOfWork
  import opened Redis
  import opened BasketRepository
  import opened BasketLines

  /** The range of a signed 64-bit integer, and the number of its values. */
  const LONG_MIN: int := -0x8000_0000_0000_0000
  const LONG_MAX: int := 0x7FFF_FFFF_FFFF_FFFF
  const LONG_RANGE: int := 0x1_0000_0000_0000_0000

  predicate InLong(v: int)
  {
    LONG_MIN <= v <= LONG_MAX
  }

  /** Division by a positive divisor rounding toward zero, as a decimal to integer conversion does. */
  function TruncDiv(x: int, d: int): (q: int)
    requires d > 0
    ensures x >= 0 ==> 0 <= q * d <= x < q * d + d
    ensures x < 0 ==> q * d - d < x <= q * d <= 0
  {
    if x >= 0 then
      DivBounds(x, d);
      x / d
    else
      var m := (-x) / d;
      DivBounds(-x, d);
      assert -m * d == -(m * d);
      -m
  }

  lemma DivBounds(y: int, d: int)
    requires y >= 0 && d > 0
    ensures 0 <= (y / d) * d <= y < (y / d) * d + d
  {
    assert y == (y / d) * d + y % d;
  }

  /** The 64-bit two's-complement value of an integer: what an unchecked multiplication keeps. */
  function Wrap64(v: int): (w: int)
    ensures InLong(w)
    ensures (w - v) % LONG_RANGE == 0
    ensures InLong(v) ==> w == v
  {
    var m := v % LONG_RANGE;
    var k := v / LONG_RANGE;
    assert v == k * LONG_RANGE + m;
    if m > LONG_MAX then
      assert m - LONG_RANGE - v == (-k - 1) * LONG_RANGE;
      m - LONG_RANGE
    else
      assert m - v == -k * LONG_RANGE;
      m
  }

  /** The sum over the lines of quantity times price times a hundred, in thousandths. */
  function ItemsCharge(items: seq<BasketItem>): Money
  {
    if items == [] then 0 else items[0].quantity * items[0].price * 100 + ItemsCharge(items[1..])
  }

  /** The items part of the charge is a hundred times the basket total. */
  lemma {:induction false} ItemsChargeIsHundredfoldTotal(items: seq<BasketItem>)
    ensures ItemsCharge(items) == 100 * BasketTotal(items)
  {
    if items != [] {
      ItemsChargeIsHundredfoldTotal(items[1..]);
    }
  }

  /**
   * The amount sent to the gateway: the items charge plus the delivery price,
   * converted to a whole number by truncation (which fails outside the 64-bit
   * range), then multiplied by a hundred in 64-bit arithmetic.
   */
  function PaymentAmount(items: seq<BasketItem>, deliveryPrice: Money): (r: Result<int, Error>)
    ensures r.Err? <==> !InLong(TruncDiv(ItemsCharge(items) + deliveryPrice, UNIT))
    ensures r.Err? ==> r.error == OverflowOnCast
    ensures r.Ok? ==> InLong(r.value)
    ensures r.Ok? ==> (r.value - 100 * TruncDiv(ItemsCharge(items) + deliveryPrice, UNIT)) % LONG_RANGE == 0
  {
    var whole := TruncDiv(ItemsCharge(items) + deliveryPrice, UNIT);
    if !InLong(whole) then Err(OverflowOnCast) else Ok(Wrap64(whole * 100))
  }

  /** Unless the final multiplication wraps around, the amount is a whole number of hundreds. */
  lemma AmountIsWholeHundreds(items: seq<BasketItem>, deliveryPrice: Money)
    requires InLong(100 * TruncDiv(ItemsCharge(items) + deliveryPrice, UNIT))
    ensures PaymentAmount(items, deliveryPrice).Ok?
    ensures PaymentAmount(items, deliveryPrice).value % 100 == 0
  {
    var whole := TruncDiv(ItemsCharge(items) + deliveryPrice, UNIT);
    assert InLong(whole);
    assert PaymentAmount(items, deliveryPrice).value == whole * 100;
  }

  /**
   * With whole-cent line prices and a whole-unit delivery price, and no
   * overflow, the amount in cents counts the item lines at a hundred times
   * their value in cents and the delivery at its value in cents.
   */
  lemma AmountInCents(items: seq<BasketItem>, deliveryPrice: Money)
    requires BasketTotal(items) % 10 == 0 && deliveryPrice % UNIT == 0
    requires InLong(100 * (BasketTotal(items) / 10) + deliveryPrice / 10)
    ensures PaymentAmount(items, deliveryPrice) == Ok(100 * (BasketTotal(items) / 10) + deliveryPrice / 10)
  {
    ItemsChargeIsHundredfoldTotal(items);
    var t, u := BasketTotal(items) / 10, deliveryPrice / UNIT;
    var x := ItemsCharge(items) + deliveryPrice;
    assert x == (t + u) * UNIT;
    var whole := TruncDiv(x, UNIT);
    assert whole == t + u by {
      if x >= 0 {
        assert (whole - (t + u)) * UNIT <= 0 < (whole - (t + u)) * UNIT + UNIT;
      } else {
        assert (whole - (t + u)) * UNIT - UNIT < 0 <= (whole - (t + u)) * UNIT;
      }
    }
    assert 100 * whole == 100 * t + deliveryPrice / 10;
  }

  /** The line with its price replaced by the current price of its product. */
  function Repriced(item: BasketItem, products: seq<Product>): BasketItem
    requires Stocked(products, item.id)
  {
    item.(price := FindByKey(products, ProductId, item.id).value.price)
  }

  /** Every line repriced from the product table, in basket order. */
  function RefreshPrices(items: seq<BasketItem>, products: seq<Product>): (r: seq<BasketItem>)
    requires forall j :: 0 <= j < |items| ==> Stocked(products, items[j].id)
    ensures |r| == |items|
    ensures forall j :: 0 <= j < |items| ==>
      r[j].id == items[j].id && r[j].quantity == items[j].quantity && r[j].name == items[j].name
      && r[j].pictureUrl == items[j].pictureUrl
      && FindByKey(products, ProductId, items[j].id).Some?
      && r[j].price == FindByKey(products, ProductId, items[j].id).value.price
  {
    var r := seq(|items|, j requires 0 <= j < |items| => Repriced(items[j], products));
    assert forall j :: 0 <= j < |items| ==> r[j] == Repriced(items[j], products);
    assert forall j :: 0 <= j < |items| ==> Stocked(products, items[j].id) == FindByKey(products, ProductId, items[j].id).Some?;
    r
  }

  /** What the gateway answers to a new intent: its id and its client secret. */
  datatype PaymentIntent = PaymentIntent(id: string, clientSecret: string)

  /** The call made to the gateway. */
  datatype GatewayCall = CreateIntent(amount: int) | UpdateIntent(intentId: string, amount: int)

  /** The basket as it is written back, and the gateway call that was made. */
  datatype Payment = Payment(basket: CustomerBasket, call: GatewayCall)

  /**
   * The outcome of a payment request on the stored basket (if any) and the
   * stored products and delivery methods: the first failure in source order,
   * or the repriced basket and the gateway call.
   */
  function PlanPayment(basket: Option<CustomerBasket>, basketId: string, products: seq<Product>,
                       deliveryMethods: seq<DeliveryMethod>, created: PaymentIntent): (r: Result<Payment, Error>)
    ensures basket.None? ==> r == Err(BasketNotFound(basketId))
    ensures basket.Some? && FirstMissingProduct(basket.value.items, products).Some? ==>
      r == Err(ProductNotFound(FirstMissingProduct(basket.value.items, products).value))
    ensures (basket.Some? && FirstMissingProduct(basket.value.items, products).None? &&
             basket.value.deliveryMethodId.None?) ==> r == Err(NullableHasNoValue)
    ensures (basket.Some? && FirstMissingProduct(basket.value.items, products).None? &&
             basket.value.deliveryMethodId.Some? &&
             FindByKey(deliveryMethods, DeliveryMethodId, basket.value.deliveryMethodId.value).None?) ==>
      r == Err(DeliveryMethodNotFound(basket.value.deliveryMethodId.value))
    ensures r == Err(OverflowOnCast) <==>
      && basket.Some? && FirstMissingProduct(basket.value.items, products).None?
      && basket.value.deliveryMethodId.Some?
      && FindByKey(deliveryMethods, DeliveryMethodId, basket.value.deliveryMethodId.value).Some?
      && PaymentAmount(RefreshPrices(basket.value.items, products),
           FindByKey(deliveryMethods, DeliveryMethodId, basket.value.deliveryMethodId.value).value.price).Err?
    ensures r.Ok? ==>
      && basket.Some? && FirstMissingProduct(basket.value.items, products).None?
      && basket.value.deliveryMethodId.Some?
      && r.value.basket.id == basket.value.id
      && r.value.basket.deliveryMethodId == basket.value.deliveryMethodId
      && r.value.basket.items == RefreshPrices(basket.value.items, products)
    ensures r.Ok? ==>
      && FindByKey(deliveryMethods, DeliveryMethodId, basket.value.deliveryMethodId.value).Some?
      && r.value.basket.shippingPrice ==
           Some(FindByKey(deliveryMethods, DeliveryMethodId, basket.value.deliveryMethodId.value).value.price)
      && PaymentAmount(r.value.basket.items, r.value.basket.shippingPrice.value) == Ok(r.value.call.amount)
    ensures r.Ok? && basket.value.paymentIntentId.None? ==>
      && r.value.call.CreateIntent?
      && r.value.basket.paymentIntentId == Some(created.id)
      && r.value.basket.clientSecret == Some(created.clientSecret)
    ensures r.Ok? && basket.value.paymentIntentId.Some? ==>
      && r.value.call == UpdateIntent(basket.value.paymentIntentId.value, r.value.call.amount)
      && r.value.basket.paymentIntentId == basket.value.paymentIntentId
      && r.value.basket.clientSecret == basket.value.clientSecret
  {
    match basket
    case None => Err(BasketNotFound(basketId))
    case Some(b) =>
      match FirstMissingProduct(b.items, products)
      case Some(productId) => Err(ProductNotFound(productId))
      case None =>
        var items := RefreshPrices(b.items, products);
        match b.deliveryMethodId
        case None => Err(NullableHasNoValue)
        case Some(deliveryMethodId) =>
          match FindByKey(deliveryMethods, DeliveryMethodId, deliveryMethodId)
          case None => Err(DeliveryMethodNotFound(deliveryMethodId))
          case Some(dm) =>
            match PaymentAmount(items, dm.price)
            case Err(e) => Err(e)
            case Ok(amount) =>
              var priced := b.(items := items, shippingPrice := Some(dm.price));
              if b.paymentIntentId.None? then
                Ok(Payment(priced.(paymentIntentId := Some(created.id), clientSecret := Some(created.clientSecret)),
                           CreateIntent(amount)))
              else
                Ok(Payment(priced, UpdateIntent(b.paymentIntentId.value, amount)))
  }

  /** Repricing twice from the same table is repricing once. */
  lemma RefreshPricesIdempotent(items: seq<BasketItem>, products: seq<Product>)
    requires forall j :: 0 <= j < |items| ==> Stocked(products, items[j].id)
    ensures forall j :: 0 <= j < |items| ==> Stocked(products, RefreshPrices(items, products)[j].id)
    ensures RefreshPrices(RefreshPrices(items, products), products) == RefreshPrices(items, products)
  {
  }

  /**
   * Asking again for a basket the service has just handled, with the tables
   * unchanged, updates the same intent with the same amount and leaves the
   * basket as it is.
   */
  lemma {:induction false} RepeatedPaymentUpdates(b: CustomerBasket, basketId: string, products: seq<Product>,
                                                deliveryMethods: seq<DeliveryMethod>,
                                                created: PaymentIntent, again: PaymentIntent)
    requires PlanPayment(Some(b), basketId, products, deliveryMethods, created).Ok?
    ensures var p := PlanPayment(Some(b), basketId, products, deliveryMethods, created).value;
      PlanPayment(Some(p.basket), basketId, products, deliveryMethods, again)
        == Ok(Payment(p.basket, UpdateIntent(p.basket.paymentIntentId.value, p.call.amount)))
  {
    var p := PlanPayment(Some(b), basketId, products, deliveryMethods, created).value;
    RefreshPricesIdempotent(b.items, products);
    assert FirstMissingProduct(p.basket.items, products).None?;
  }

  class PaymentServices {
    const basketRepository: BasketRepository
    const unitOfWork: UnitOfWork

    constructor (basketRepository: BasketRepository, unitOfWork: UnitOfWork)
      ensures this.basketRepository == basketRepository && this.unitOfWork == unitOfWork
    {
      this.basketRepository := basketRepository;
      this.unitOfWork := unitOfWork;
    }

    ghost predicate Valid()
      reads unitOfWork, unitOfWork.context, unitOfWork.context.products,
            unitOfWork.context.deliveryMethods, unitOfWork.context.orders
    {
      basketRepository.Valid() && unitOfWork.Valid() && unitOfWork.DomainTypesOnly() && unitOfWork.context.Valid()
    }

    /** The outcome the stored basket, products and delivery methods call for. */
    ghost function Plan(basketId: string, now: Millis, created: PaymentIntent): Result<Payment, Error>
      reads basketRepository.database, unitOfWork, unitOfWork.context.products, unitOfWork.context.deliveryMethods
    {
      PlanPayment(basketRepository.GetBasket(basketId, now), basketId, unitOfWork.context.products.rows,
                  unitOfWork.context.deliveryMethods.rows, created)
    }

    /**
     * Reprices the stored basket, sets its shipping price, creates or updates
     * the payment intent and writes the basket back for the default time to
     * live. The outcome of the write is not looked at. On a failure nothing is
     * called and nothing is written; the unit of work is never saved.
     */
    method CreateOrUpdatePaymentIntent(basketId: string, now: Millis, created: PaymentIntent, accepted: bool)
      returns (r: Result<CustomerBasket, Error>, call: Option<GatewayCall>)
      requires Valid()
      modifies unitOfWork`repositories, basketRepository.database
      ensures Valid()
      ensures unitOfWork.context.saves == old(unitOfWork.context.saves)
      ensures old(Plan(basketId, now, created)).Err? ==>
        && r == Err(old(Plan(basketId, now, created)).error) && call.None?
        && basketRepository.database.entries == old(basketRepository.database.entries)
      ensures old(Plan(basketId, now, created)).Ok? ==>
        && r == Ok(old(Plan(basketId, now, created)).value.basket)
        && call == Some(old(Plan(basketId, now, created)).value.call)
      ensures r.Ok? && accepted ==>
        (basketRepository.database.entries == old(basketRepository.database.entries)[r.value.id :=
           Entry(basketRepository.json.encode(r.value), now + DEFAULT_BASKET_TTL)])
      ensures r.Ok? && !accepted ==> basketRepository.database.entries == old(basketRepository.database.entries)
    {
      ghost var plan := Plan(basketId, now, created);
      var found := basketRepository.GetBasket(basketId, now);
      if found.None? {
        return Err(BasketNotFound(basketId)), None;
      }
      var basket := found.value;
      var productRepo := unitOfWork.GetProductRepository();
      var items := RefreshItemPrices(basket.items, productRepo);
      if items.Err? {
        return Err(items.error), None;
      }
      basket := basket.(items := items.value);
      var deliveryRepo := unitOfWork.GetDeliveryMethodRepository();
      if basket.deliveryMethodId.None? {
        return Err(NullableHasNoValue), None;
      }
      var deliveryMethod := deliveryRepo.GetById(basket.deliveryMethodId.value);
      if deliveryMethod.None? {
        return Err(DeliveryMethodNotFound(basket.deliveryMethodId.value)), None;
      }
      basket := basket.(shippingPrice := Some(deliveryMethod.value.price));
      var amount := PaymentAmount(basket.items, deliveryMethod.value.price);
      if amount.Err? {
        return Err(amount.error), None;
      }
      if basket.paymentIntentId.None? {
        call := Some(CreateIntent(amount.value));
        basket := basket.(paymentIntentId := Some(created.id), clientSecret := Some(created.clientSecret));
      } else {
        call := Some(UpdateIntent(basket.paymentIntentId.value, amount.value));
      }
      assert plan == Ok(Payment(basket, call.value));
      var written := basketRepository.CreateUpdateBasket(basket, None, now, accepted);
      r := Ok(basket);
    }

    /**
     * The loop over the basket lines: looks each product up (failing on the
     * first one that is not stored) and overwrites the line's price with the
     * product's.
     */
    method RefreshItemPrices(basketItems: seq<BasketItem>, productRepo: GenericRepository<Product, int>)
      returns (r: Result<seq<BasketItem>, Error>)
      requires productRepo.table.keyOf == ProductId
      ensures FirstMissingProduct(basketItems, productRepo.table.rows).Some? ==>
        r == Err(ProductNotFound(FirstMissingProduct(basketItems, productRepo.table.rows).value))
      ensures FirstMissingProduct(basketItems, productRepo.table.rows).None? ==>
        r == Ok(RefreshPrices(basketItems, productRepo.table.rows))
    {
      var products := productRepo.table.rows;
      var items := basketItems;
      var i := 0;
      while i < |items|
        invariant 0 <= i <= |items| == |basketItems|
        invariant forall j :: 0 <= j < i ==> Stocked(products, basketItems[j].id)
        invariant forall j :: 0 <= j < i ==> items[j] == Repriced(basketItems[j], products)
        invariant forall j :: i <= j < |items| ==> items[j] == basketItems[j]
      {
        var product := productRepo.GetById(items[i].id);
        if product.None? {
          assert FirstMissingProduct(basketItems, products) == Some(items[i].id);
          return Err(ProductNotFound(items[i].id));
        }
        items := items[i := items[i].(price := product.value.price)];
        i := i + 1;
      }
      assert items == RefreshPrices(basketItems, products);
      r := Ok(items);
    }
  }
}
