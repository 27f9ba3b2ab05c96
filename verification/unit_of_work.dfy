/**
 * The unit of work: one repository per entity type, created on first
 * request and cached under the type's short name, all over one context.
 */
module UnitOfWork {
  import opened Wrappers
  import opened Domain
  import opened Store
  import opened Repository

  /** Which table of the context an entity type maps to. */
  datatype EntityKind = ProductEntity | DeliveryMethodEntity | OrderEntity

  /** An entity type: its namespace, its short name and its table. */
  datatype EntityType = EntityType(ns: string, name: string, kind: EntityKind)

  const PRODUCT_TYPE := EntityType("ECommerce.Domain.Models.Products", "Product", ProductEntity)
  const DELIVERY_METHOD_TYPE := EntityType("ECommerce.Domain.Models.Orders", "DeliveryMethod", DeliveryMethodEntity)
  const ORDER_TYPE := EntityType("ECommerce.Domain.Models.Orders", "Order", OrderEntity)

  /** The entity types the domain declares. */
  predicate IsDomainType(t: EntityType)
  {
    t == PRODUCT_TYPE || t == DELIVERY_METHOD_TYPE || t == ORDER_TYPE
  }

  function FullName(t: EntityType): string
  {
    t.ns + "." + t.name
  }

  /** A cached repository, tagged with the entity type it was created for. */
  datatype RepoHandle =
    | ProductRepository(entityType: EntityType, products: GenericRepository<Product, int>)
    | DeliveryMethodRepository(entityType: EntityType, deliveryMethods: GenericRepository<DeliveryMethod, int>)
    | OrderRepository(entityType: EntityType, orders: GenericRepository<Order, Guid>)

  /** The repository object a handle holds. */
  function HandleObject(h: RepoHandle): object
  {
    match h
    case ProductRepository(_, r) => r as object
    case DeliveryMethodRepository(_, r) => r as object
    case OrderRepository(_, r) => r as object
  }

  class UnitOfWork {
    /** The cache: short type name to repository. */
    var repositories: map<string, RepoHandle>
    const context: StoreContext

    /** A handle whose repository works on the table of its entity type, over this context. */
    ghost predicate Serves(h: RepoHandle)
    {
      match h
      case ProductRepository(t, r) =>
        t.kind == ProductEntity && r.context == context && r.table == context.products
      case DeliveryMethodRepository(t, r) =>
        t.kind == DeliveryMethodEntity && r.context == context && r.table == context.deliveryMethods
      case OrderRepository(t, r) =>
        t.kind == OrderEntity && r.context == context && r.table == context.orders
    }

    ghost predicate Valid()
      reads this
    {
      forall n :: n in repositories ==> repositories[n].entityType.name == n && Serves(repositories[n])
    }

    /** Only the domain's own entity types have been requested so far. */
    ghost predicate DomainTypesOnly()
      reads this
    {
      forall n :: n in repositories ==> IsDomainType(repositories[n].entityType)
    }

    constructor (context: StoreContext)
      ensures this.context == context && repositories == map[]
      ensures Valid() && DomainTypesOnly()
    {
      this.context := context;
      repositories := map[];
    }

    /**
     * The cached repository of the type's short name, created on the first
     * request. A cached repository created for another type of the same
     * short name fails the cast.
     */
    method GetRepository(t: EntityType) returns (r: Result<RepoHandle, Error>)
      requires Valid()
      modifies this`repositories
      ensures Valid()
      ensures r.Ok? ==> r.value.entityType == t && Serves(r.value)
      ensures t.name in old(repositories) ==> repositories == old(repositories)
      ensures t.name in old(repositories) && old(repositories)[t.name].entityType == t ==>
        r == Ok(old(repositories)[t.name])
      ensures t.name in old(repositories) && old(repositories)[t.name].entityType != t ==>
        r == Err(InvalidCast(FullName(t)))
      ensures t.name !in old(repositories) ==>
        && r.Ok? && fresh(HandleObject(r.value))
        && repositories == old(repositories)[t.name := r.value]
        && |repositories| == |old(repositories)| + 1
      ensures old(DomainTypesOnly()) && IsDomainType(t) ==> DomainTypesOnly()
    {
      if t.name in repositories {
        var cached := repositories[t.name];
        if cached.entityType == t {
          return Ok(cached);
        }
        return Err(InvalidCast(FullName(t)));
      }
      var handle: RepoHandle;
      match t.kind {
        case ProductEntity =>
          var repo := new GenericRepository(context, context.products);
          handle := ProductRepository(t, repo);
        case DeliveryMethodEntity =>
          var repo := new GenericRepository(context, context.deliveryMethods);
          handle := DeliveryMethodRepository(t, repo);
        case OrderEntity =>
          var repo := new GenericRepository(context, context.orders);
          handle := OrderRepository(t, repo);
      }
      repositories := repositories[t.name := handle];
      r := Ok(handle);
    }

    /** The repository request for the product type, which a domain-only cache always serves. */
    method GetProductRepository() returns (repo: GenericRepository<Product, int>)
      requires Valid() && DomainTypesOnly()
      modifies this`repositories
      ensures Valid() && DomainTypesOnly()
      ensures repo.context == context && repo.table == context.products
    {
      var handle := GetRepository(PRODUCT_TYPE);
      repo := handle.value.products;
    }

    /** The repository request for the delivery-method type. */
    method GetDeliveryMethodRepository() returns (repo: GenericRepository<DeliveryMethod, int>)
      requires Valid() && DomainTypesOnly()
      modifies this`repositories
      ensures Valid() && DomainTypesOnly()
      ensures repo.context == context && repo.table == context.deliveryMethods
    {
      var handle := GetRepository(DELIVERY_METHOD_TYPE);
      repo := handle.value.deliveryMethods;
    }

    /** The repository request for the order type. */
    method GetOrderRepository() returns (repo: GenericRepository<Order, Guid>)
      requires Valid() && DomainTypesOnly()
      modifies this`repositories
      ensures Valid() && DomainTypesOnly()
      ensures repo.context == context && repo.table == context.orders
    {
      var handle := GetRepository(ORDER_TYPE);
      repo := handle.value.orders;
    }

    /** Saves the context; the repository cache is left as it is. */
    method SaveChanges(dbAccepts: bool) returns (r: Result<nat, Error>)
      requires context.Valid()
      modifies context.products, context.deliveryMethods, context.orders, context`saves
      ensures context.Valid()
      ensures context.saves == old(context.saves) + 1
      ensures r.Ok? <==> dbAccepts && old(context.Applicable())
      ensures r.Ok? ==> r.value == old(context.PendingCount())
      ensures r.Ok? ==>
        && context.products.rows == ApplyAll(old(context.products.rows), context.products.keyOf, old(context.products.pending)).value
        && context.deliveryMethods.rows == ApplyAll(old(context.deliveryMethods.rows), context.deliveryMethods.keyOf, old(context.deliveryMethods.pending)).value
        && context.orders.rows == ApplyAll(old(context.orders.rows), context.orders.keyOf, old(context.orders.pending)).value
        && context.products.pending == [] && context.deliveryMethods.pending == [] && context.orders.pending == []
      ensures r.Err? ==> r.error == CommitRejected && unchanged(context.products, context.deliveryMethods, context.orders)
    {
      r := context.SaveChanges(dbAccepts);
    }
  }
}
