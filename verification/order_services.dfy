/**
 * The order service: turns a stored basket into an order (one line per
 * basket line, priced as in the basket), adds it and saves once; lists a
 * user's orders newest first; and reads one order by id.
 */
module OrderServices {
  import opened Wrappers
  import opened Domain
  import opened Store
  import opened Specifications
  import opened SpecificationsEvaluator
  import opened OrderSpecifications
  import opened Repository
  import opened UnitOfWork
  import opened BasketRepository
  import opened BasketLines

  /** The order line for a basket line: its product id, name and picture, its quantity and its price. */
  function OrderItemFor(item: BasketItem): OrderItem
  {
    OrderItem(ProductItemOrder(item.id, item.name, item.pictureUrl), item.price, item.quantity)
  }

  function OrderItemsFor(items: seq<BasketItem>): (r: seq<OrderItem>)
    ensures |r| == |items| && forall i :: 0 <= i < |items| ==> r[i] == OrderItemFor(items[i])
  {
    seq(|items|, i requires 0 <= i < |items| => OrderItemFor(items[i]))
  }

  /** The sum of price times quantity over the order lines. */
  function SubTotal(items: seq<OrderItem>): Money
  {
    if items == [] then 0 else items[0].price * items[0].quantity + SubTotal(items[1..])
  }

  /** Converting the lines keeps the total. */
  lemma {:induction false} SubTotalOfBasket(items: seq<BasketItem>)
    ensures SubTotal(OrderItemsFor(items)) == BasketTotal(items)
  {
    if items != [] {
      SubTotalOfBasket(items[1..]);
      assert OrderItemsFor(items)[1..] == OrderItemsFor(items[1..]);
    }
  }

  /**
   * The outcome of creating an order from the stored basket (if any) and the
   * stored products and delivery methods: the first failure in source order,
   * or the new order.
   */
  function PlanOrder(basket: Option<CustomerBasket>, basketId: string, email: string, address: OrderAddress,
                     deliveryMethodId: int, products: seq<Product>, deliveryMethods: seq<DeliveryMethod>,
                     id: Guid, now: Millis): (r: Result<Order, Error>)
    ensures basket.None? ==> r == Err(BasketNotFound(basketId))
    ensures basket.Some? && FirstMissingProduct(basket.value.items, products).Some? ==>
      r == Err(ProductNotFound(FirstMissingProduct(basket.value.items, products).value))
    ensures (basket.Some? && FirstMissingProduct(basket.value.items, products).None? &&
             FindByKey(deliveryMethods, DeliveryMethodId, deliveryMethodId).None?) ==>
      r == Err(DeliveryMethodNotFound(deliveryMethodId))
    ensures r.Ok? ==>
      && basket.Some?
      && (forall j :: 0 <= j < |basket.value.items| ==> Stocked(products, basket.value.items[j].id))
      && r.value.id == id && r.value.userEmail == email && r.value.orderAddress == address && r.value.orderDate == now
      && r.value.deliveryMethod.Some? && r.value.deliveryMethod.value in deliveryMethods
      && r.value.deliveryMethod.value.id == deliveryMethodId && r.value.deliveryMethodId == deliveryMethodId
      && r.value.orderStatus == DEFAULT_ORDER_STATUS && r.value.paymentIntentId.None?
    ensures r.Ok? ==>
      && |r.value.items| == |basket.value.items|
      && (forall j :: 0 <= j < |r.value.items| ==>
            var line, item := r.value.items[j], basket.value.items[j];
            && line.product == ProductItemOrder(item.id, item.name, item.pictureUrl)
            && line.price == item.price && line.quantity == item.quantity)
      && r.value.subTotal == BasketTotal(basket.value.items)
  {
    match basket
    case None => Err(BasketNotFound(basketId))
    case Some(b) =>
      match FirstMissingProduct(b.items, products)
      case Some(productId) => Err(ProductNotFound(productId))
      case None =>
        match FindByKey(deliveryMethods, DeliveryMethodId, deliveryMethodId)
        case None => Err(DeliveryMethodNotFound(deliveryMethodId))
        case Some(dm) =>
          var items := OrderItemsFor(b.items);
          SubTotalOfBasket(b.items);
          Ok(NewOrder(id, now).(userEmail := email, orderAddress := address, deliveryMethodId := dm.id,
                                deliveryMethod := Some(dm), items := items, subTotal := SubTotal(items)))
  }

  /** The total of a new order is the basket total plus the delivery price. */
  lemma PlannedOrderTotal(basket: Option<CustomerBasket>, basketId: string, email: string, address: OrderAddress,
                          deliveryMethodId: int, products: seq<Product>, deliveryMethods: seq<DeliveryMethod>,
                          id: Guid, now: Millis)
    requires PlanOrder(basket, basketId, email, address, deliveryMethodId, products, deliveryMethods, id, now).Ok?
    ensures var o := PlanOrder(basket, basketId, email, address, deliveryMethodId, products, deliveryMethods, id, now).value;
      GetTotal(o) == Ok(BasketTotal(basket.value.items) + o.deliveryMethod.value.price)
  {
  }

  class OrderServices {
    const basketRepository: BasketRepository
    const unitOfWork: UnitOfWork

    constructor (basketRepository: BasketRepository, unitOfWork: UnitOfWork)
      ensures this.basketRepository == basketRepository && this.unitOfWork == unitOfWork
    {
      this.basketRepository := basketRepository;
      this.unitOfWork := unitOfWork;
    }

    ghost predicate Valid()
      reads unitOfWork, unitOfWork.context, unitOfWork.context.products,
            unitOfWork.context.deliveryMethods, unitOfWork.context.orders
    {
      unitOfWork.Valid() && unitOfWork.DomainTypesOnly() && unitOfWork.context.Valid()
    }

    /** No change is staged on the context: a request starts with a fresh one. */
    ghost predicate NothingStaged()
      reads unitOfWork, unitOfWork.context.products, unitOfWork.context.deliveryMethods, unitOfWork.context.orders
    {
      unitOfWork.context.products.pending == [] && unitOfWork.context.deliveryMethods.pending == []
        && unitOfWork.context.orders.pending == []
    }

    /** The outcome the stored basket, products and delivery methods call for. */
    ghost function Plan(basketId: string, address: OrderAddress, deliveryMethodId: int, email: string,
                        id: Guid, now: Millis): Result<Order, Error>
      reads basketRepository.database, unitOfWork, unitOfWork.context.products, unitOfWork.context.deliveryMethods
    {
      PlanOrder(basketRepository.GetBasket(basketId, now), basketId, email, address, deliveryMethodId,
                unitOfWork.context.products.rows, unitOfWork.context.deliveryMethods.rows, id, now)
    }

    /** Whether a save of the new order goes through: the database accepts and the id is new. */
    ghost predicate Commits(dbAccepts: bool, id: Guid)
      reads unitOfWork, unitOfWork.context.orders
    {
      dbAccepts && FindByKey(unitOfWork.context.orders.rows, OrderId, id).None?
    }

    /**
     * Creates the order for the basket and saves it. Every failure of the plan
     * happens before anything is staged; a refused save leaves the order
     * staged and nothing committed.
     */
    method CreateOrder(basketId: string, address: OrderAddress, deliveryMethodId: int, email: string,
                       id: Guid, now: Millis, dbAccepts: bool) returns (r: Result<Order, Error>)
      requires Valid() && NothingStaged()
      modifies unitOfWork`repositories, unitOfWork.context.products, unitOfWork.context.deliveryMethods,
               unitOfWork.context.orders, unitOfWork.context`saves
      ensures Valid()
      ensures unitOfWork.context.products.rows == old(unitOfWork.context.products.rows)
      ensures unitOfWork.context.deliveryMethods.rows == old(unitOfWork.context.deliveryMethods.rows)
      ensures old(Plan(basketId, address, deliveryMethodId, email, id, now)).Err? ==>
        && r == old(Plan(basketId, address, deliveryMethodId, email, id, now))
        && unitOfWork.context.saves == old(unitOfWork.context.saves)
        && unchanged(unitOfWork.context.products, unitOfWork.context.deliveryMethods, unitOfWork.context.orders)
      ensures old(Plan(basketId, address, deliveryMethodId, email, id, now)).Ok? ==>
        unitOfWork.context.saves == old(unitOfWork.context.saves) + 1
      ensures r.Ok? <==> old(Plan(basketId, address, deliveryMethodId, email, id, now)).Ok? && old(Commits(dbAccepts, id))
      ensures r.Ok? ==> r == old(Plan(basketId, address, deliveryMethodId, email, id, now))
      ensures r.Ok? ==> unitOfWork.context.orders.rows == old(unitOfWork.context.orders.rows) + [r.value]
      ensures r.Ok? ==> NothingStaged()
      ensures old(Plan(basketId, address, deliveryMethodId, email, id, now)).Ok? && !old(Commits(dbAccepts, id)) ==>
        && r == Err(CommitRejected)
        && unitOfWork.context.orders.rows == old(unitOfWork.context.orders.rows)
        && unitOfWork.context.orders.pending == [Added(old(Plan(basketId, address, deliveryMethodId, email, id, now)).value)]
    {
      ghost var plan := Plan(basketId, address, deliveryMethodId, email, id, now);
      ghost var oldOrders := unitOfWork.context.orders.rows;
      var planned := PrepareOrder(basketId, address, deliveryMethodId, email, id, now);
      if planned.Err? {
        return planned;
      }
      var order := planned.value;
      var orderRepo := unitOfWork.GetOrderRepository();
      orderRepo.Add(order);
      ApplySingleInsert(oldOrders, OrderId, order);
      assert unitOfWork.context.orders.pending == [Added(order)];
      assert unitOfWork.context.Applicable() <==> FindByKey(oldOrders, OrderId, id).None? by {
        assert ApplyAll(unitOfWork.context.products.rows, ProductId, []).Some?;
        assert ApplyAll(unitOfWork.context.deliveryMethods.rows, DeliveryMethodId, []).Some?;
      }
      var saved := unitOfWork.SaveChanges(dbAccepts);
      if saved.Err? {
        return Err(saved.error);
      }
      assert unitOfWork.context.orders.rows == oldOrders + [order];
      r := Ok(order);
    }

    /**
     * The steps before anything is staged: read the basket, convert its lines,
     * look the delivery method up and build the order.
     */
    method PrepareOrder(basketId: string, address: OrderAddress, deliveryMethodId: int, email: string,
                        id: Guid, now: Millis) returns (r: Result<Order, Error>)
      requires Valid()
      modifies unitOfWork`repositories
      ensures Valid()
      ensures r == old(Plan(basketId, address, deliveryMethodId, email, id, now))
    {
      ghost var plan := Plan(basketId, address, deliveryMethodId, email, id, now);
      var basket := basketRepository.GetBasket(basketId, now);
      if basket.None? {
        assert plan == Err(BasketNotFound(basketId));
        return Err(BasketNotFound(basketId));
      }
      var productRepo := unitOfWork.GetProductRepository();
      var orderItems := ConvertItems(basket.value.items, productRepo);
      if orderItems.Err? {
        assert plan == Err(orderItems.error) by {
          assert FirstMissingProduct(basket.value.items, unitOfWork.context.products.rows).Some?;
        }
        return Err(orderItems.error);
      }
      var deliveryRepo := unitOfWork.GetDeliveryMethodRepository();
      var deliveryMethod := deliveryRepo.GetById(deliveryMethodId);
      if deliveryMethod.None? {
        assert plan == Err(DeliveryMethodNotFound(deliveryMethodId));
        return Err(DeliveryMethodNotFound(deliveryMethodId));
      }
      var dm := deliveryMethod.value;
      r := Ok(NewOrder(id, now).(userEmail := email, orderAddress := address, deliveryMethodId := dm.id,
                                 deliveryMethod := Some(dm), items := orderItems.value,
                                 subTotal := SubTotal(orderItems.value)));
      assert plan == r;
    }

    /**
     * The loop over the basket lines: looks each product up (failing on the
     * first one that is not stored) and collects one order line per basket line.
     */
    method ConvertItems(items: seq<BasketItem>, productRepo: GenericRepository<Product, int>)
      returns (r: Result<seq<OrderItem>, Error>)
      requires productRepo.table.keyOf == ProductId
      ensures FirstMissingProduct(items, productRepo.table.rows).Some? ==>
        r == Err(ProductNotFound(FirstMissingProduct(items, productRepo.table.rows).value))
      ensures FirstMissingProduct(items, productRepo.table.rows).None? ==> r == Ok(OrderItemsFor(items))
    {
      var orderItems: seq<OrderItem> := [];
      var i := 0;
      while i < |items|
        invariant 0 <= i <= |items|
        invariant orderItems == OrderItemsFor(items[..i])
        invariant forall j :: 0 <= j < i ==> Stocked(productRepo.table.rows, items[j].id)
      {
        var product := productRepo.GetById(items[i].id);
        if product.None? {
          return Err(ProductNotFound(items[i].id));
        }
        assert items[..i + 1] == items[..i] + [items[i]];
        orderItems := orderItems + [OrderItemFor(items[i])];
        i := i + 1;
      }
      assert items[..i] == items;
      r := Ok(orderItems);
    }

    /** Every stored delivery method, as stored. */
    method GetDeliveryMethods() returns (methods: seq<DeliveryMethod>)
      requires Valid()
      modifies unitOfWork`repositories
      ensures Valid()
      ensures methods == unitOfWork.context.deliveryMethods.rows
      ensures UniqueKeys(methods, DeliveryMethodId)
    {
      var deliveryRepo := unitOfWork.GetDeliveryMethodRepository();
      methods := deliveryRepo.GetAll();
    }

    /** The user's orders, newest first. */
    method GetAllOrders(email: string) returns (orders: seq<Order>)
      requires Valid()
      modifies unitOfWork`repositories
      ensures Valid()
      ensures forall o :: o in orders <==> o in unitOfWork.context.orders.rows && o.userEmail == email
      ensures forall i, j :: 0 <= i < j < |orders| ==> orders[i].orderDate >= orders[j].orderDate
      ensures multiset(orders) == multiset(Where(unitOfWork.context.orders.rows, (o: Order) => o.userEmail == email))
    {
      var spec := NewOrderSpecificationByEmail(email);
      var orderRepo := unitOfWork.GetOrderRepository();
      orders := orderRepo.GetAllWithSpecifications(spec.View());
      OrdersOfUserResult(unitOfWork.context.orders.rows, email);
    }

    /** The order with the id, or nothing. */
    method GetOrderById(orderId: Guid) returns (order: Option<Order>)
      requires Valid()
      modifies unitOfWork`repositories
      ensures Valid()
      ensures order == FindByKey(unitOfWork.context.orders.rows, OrderId, orderId)
      ensures order.Some? ==> order.value.id == orderId && order.value in unitOfWork.context.orders.rows
      ensures order.None? <==> forall o :: o in unitOfWork.context.orders.rows ==> o.id != orderId
    {
      var spec := NewOrderSpecificationById(orderId);
      var orderRepo := unitOfWork.GetOrderRepository();
      SpecificationByKeyIsGetById(orderRepo, spec.View(), orderId);
      order := orderRepo.GetByIdWithSpecifications(spec.View());
    }
  }
}
