/**
 * The order specifications: a user's orders (newest first), one order by id,
 * and the order carrying a payment intent. The first two load the items and
 * the delivery method with the order.
 */
module OrderSpecifications {
  import opened Wrappers
  import opened Ordering
  import opened Domain
  import opened StableSort
  import opened Specifications
  import opened SpecificationsEvaluator

  function OrderDateKey(o: Order): SortKey { Number(o.orderDate) }

  /** The orders of one user, items and delivery method loaded, by order date descending. */
  function OrdersOfUserSpec(email: string): (spec: QuerySpec<Order>)
    ensures spec.criteria.Some? && forall o :: spec.criteria.value(o) <==> o.userEmail == email
    ensures spec.includes == [OrderItems, OrderDeliveryMethod]
    ensures spec.orderBy.None? && spec.orderByDesc == Some(OrderDateKey)
  {
    QuerySpec(Some((o: Order) => o.userEmail == email), [OrderItems, OrderDeliveryMethod], None, Some(OrderDateKey), 0, 0, false)
  }

  /** One order by id, items and delivery method loaded, unsorted. */
  function OrderByIdSpec(id: Guid): (spec: QuerySpec<Order>)
    ensures spec.criteria.Some? && forall o :: spec.criteria.value(o) <==> o.id == id
    ensures spec.includes == OrdersOfUserSpec("").includes
    ensures spec.orderBy.None? && spec.orderByDesc.None?
  {
    QuerySpec(Some((o: Order) => o.id == id), [OrderItems, OrderDeliveryMethod], None, None, 0, 0, false)
  }

  /** The orders whose payment intent is the given one; nothing loaded, unsorted. */
  function OrderWithPaymentIntentSpec(paymentIntentId: string): (spec: QuerySpec<Order>)
    ensures spec.criteria.Some? && forall o :: spec.criteria.value(o) <==> o.paymentIntentId == Some(paymentIntentId)
    ensures spec.includes == [] && spec.orderBy.None? && spec.orderByDesc.None?
  {
    QuerySpec(Some((o: Order) => o.paymentIntentId == Some(paymentIntentId)), [], None, None, 0, 0, false)
  }

  /** The by-email constructor. */
  method NewOrderSpecificationByEmail(email: string) returns (spec: BaseSpecification<Order>)
    ensures fresh(spec)
    ensures spec.View() == OrdersOfUserSpec(email)
  {
    spec := new BaseSpecification((o: Order) => o.userEmail == email);
    spec.AddInclude(OrderItems);
    spec.AddInclude(OrderDeliveryMethod);
    spec.AddOrderByDesc(OrderDateKey);
  }

  /** The by-id constructor. */
  method NewOrderSpecificationById(id: Guid) returns (spec: BaseSpecification<Order>)
    ensures fresh(spec)
    ensures spec.View() == OrderByIdSpec(id)
  {
    spec := new BaseSpecification((o: Order) => o.id == id);
    spec.AddInclude(OrderItems);
    spec.AddInclude(OrderDeliveryMethod);
  }

  /** The payment-intent constructor. */
  method NewOrderWithPaymentIntentIdSpecification(paymentIntentId: string) returns (spec: BaseSpecification<Order>)
    ensures fresh(spec)
    ensures spec.View() == OrderWithPaymentIntentSpec(paymentIntentId)
  {
    spec := new BaseSpecification((o: Order) => o.paymentIntentId == Some(paymentIntentId));
  }

  /**
   * A user's orders: exactly that user's orders, each as often as stored,
   * newest first, with items and delivery method loaded.
   */
  lemma OrdersOfUserResult(orders: seq<Order>, email: string)
    ensures var q := CreateQuery(orders, OrdersOfUserSpec(email));
      && (forall o :: o in q.rows <==> o in orders && o.userEmail == email)
      && multiset(q.rows) == multiset(Where(orders, (o: Order) => o.userEmail == email))
      && (forall i, j :: 0 <= i < j < |q.rows| ==> q.rows[i].orderDate >= q.rows[j].orderDate)
      && q.included == [OrderItems, OrderDeliveryMethod]
  {
    var spec := OrdersOfUserSpec(email);
    var q := CreateQuery(orders, spec);
    CreateQueryShape(orders, spec);
    CreateQueryDescending(orders, spec);
    assert multiset(q.rows) == multiset(Where(orders, spec.criteria.value));
    forall o ensures o in q.rows <==> o in orders && o.userEmail == email {
      CreateQueryMembers(orders, spec, o);
    }
    assert SortedBy(q.rows, OrderDateKey, true);
    forall i, j | 0 <= i < j < |q.rows|
      ensures q.rows[i].orderDate >= q.rows[j].orderDate
    {
      assert Before(OrderDateKey, true, q.rows[i], q.rows[j]);
    }
  }

  /** Ids are unique in the table, so the by-id specification selects at most one order. */
  lemma OrderByIdAtMostOne(orders: seq<Order>, id: Guid)
    requires UniqueKeys(orders, OrderId)
    ensures |CreateQuery(orders, OrderByIdSpec(id)).rows| <= 1
    ensures forall o :: o in CreateQuery(orders, OrderByIdSpec(id)).rows <==> o in orders && o.id == id
  {
    var spec := OrderByIdSpec(id);
    CreateQueryFilters(orders, spec);
    forall o ensures o in CreateQuery(orders, spec).rows <==> o in orders && o.id == id {
      CreateQueryMembers(orders, spec, o);
    }
    WhereUniqueKey(orders, spec.criteria.value, OrderId, id);
  }

  /** The payment-intent lookup keeps the stored order of the matching orders. */
  lemma OrderWithPaymentIntentResult(orders: seq<Order>, paymentIntentId: string)
    ensures var q := CreateQuery(orders, OrderWithPaymentIntentSpec(paymentIntentId));
      && IsSubsequence(q.rows, orders)
      && (forall o :: o in q.rows <==> o in orders && o.paymentIntentId == Some(paymentIntentId))
      && q.included == []
  {
    var spec := OrderWithPaymentIntentSpec(paymentIntentId);
    CreateQueryFilters(orders, spec);
    forall o ensures o in CreateQuery(orders, spec).rows <==> o in orders && o.paymentIntentId == Some(paymentIntentId) {
      CreateQueryMembers(orders, spec, o);
    }
    CreateQueryShape(orders, spec);
  }
}
