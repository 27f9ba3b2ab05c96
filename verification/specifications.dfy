/**
 * Query specifications: a filter that is fixed at construction, an ordered
 * list of navigation properties to load eagerly, and optional ascending and
 * descending sort keys. Concrete specifications are built by the factory
 * methods of ProductSpecifications and OrderSpecifications.
 */
module Specifications {
  import opened Wrappers
  import opened Ordering

  /** The navigation properties an include can name. */
  datatype Navigation = ProductBrand | ProductType | OrderItems | OrderDeliveryMethod

  /**
   * A specification as its readers see it: criteria, includes, the two sort
   * keys and the pagination window with its switch.
   */
  datatype QuerySpec<!T> = QuerySpec(
    criteria: Option<T -> bool>,
    includes: seq<Navigation>,
    orderBy: Option<T -> SortKey>,
    orderByDesc: Option<T -> SortKey>,
    take: int,
    skip: int,
    isPaginated: bool)

  class BaseSpecification<T> {
    /** Set by the constructor and never again. */
    const criteria: T -> bool
    var includes: seq<Navigation>
    var orderBy: Option<T -> SortKey>
    var orderByDesc: Option<T -> SortKey>

    constructor (criteria: T -> bool)
      ensures this.criteria == criteria
      ensures includes == [] && orderBy == None && orderByDesc == None
    {
      this.criteria := criteria;
      includes := [];
      orderBy := None;
      orderByDesc := None;
    }

    /** Appends one include after the ones added before it. */
    method AddInclude(navigation: Navigation)
      modifies this`includes
      ensures includes == old(includes) + [navigation]
    {
      includes := includes + [navigation];
    }

    method AddOrderBy(key: T -> SortKey)
      modifies this`orderBy
      ensures orderBy == Some(key)
    {
      orderBy := Some(key);
    }

    method AddOrderByDesc(key: T -> SortKey)
      modifies this`orderByDesc
      ensures orderByDesc == Some(key)
    {
      orderByDesc := Some(key);
    }

    /**
     * The specification handed to the evaluator. The base class keeps no
     * pagination state, so the window reads as its defaults: not paginated.
     */
    function View(): (v: QuerySpec<T>)
      reads this
    {
      QuerySpec(Some(criteria), includes, orderBy, orderByDesc, 0, 0, false)
    }
  }
}
