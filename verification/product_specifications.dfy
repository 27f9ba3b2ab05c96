/**
 * The product specifications: the listing filter (brand, type and a
 * case-insensitive name search) with its sort option, the count that uses the
 * same filter, and the lookup by id. Each loads the brand and type with the
 * product, except the count.
 */
module ProductSpecifications {
  import opened Wrappers
  import opened Ordering
  import opened Domain
  import opened Specifications
  import opened SpecificationsEvaluator
  import opened ProductQuery
  import opened StableSort

  /** ASCII lower-casing of one character. */
  function LowerChar(c: char): char
  {
    if 'A' <= c <= 'Z' then (c as int + 32) as char else c
  }

  /** ASCII lower-casing of a string. */
  function ToLower(s: string): (r: string)
    ensures |r| == |s|
  {
    if s == [] then [] else [LowerChar(s[0])] + ToLower(s[1..])
  }

  lemma {:induction false} ToLowerIdempotent(s: string)
    ensures ToLower(ToLower(s)) == ToLower(s)
  {
    if s != [] {
      ToLowerIdempotent(s[1..]);
      assert ToLower(s)[1..] == ToLower(s[1..]);
    }
  }

  /** Ordinal substring test. */
  predicate Contains(s: string, sub: string)
    decreases |s|
  {
    (|sub| <= |s| && s[..|sub|] == sub) || (s != [] && Contains(s[1..], sub))
  }

  /** The listing and count filter. */
  function ProductCriteria(brandId: Option<int>, typeId: Option<int>, searchValue: Option<string>): Product -> bool
  {
    (p: Product) => (brandId.None? || p.brandId == brandId.value)
      && (typeId.None? || p.typeId == typeId.value)
      && (searchValue.None? || searchValue.value == [] || Contains(ToLower(p.name), ToLower(searchValue.value)))
  }

  function NameKey(p: Product): SortKey { Text(p.name) }
  function PriceKey(p: Product): SortKey { Number(p.price) }

  /** The ascending key a sort option selects. */
  function AscendingKey(sorting: Option<ProductSortingOption>): Option<Product -> SortKey>
  {
    match sorting
    case Some(NameAscending) => Some(NameKey)
    case Some(PriceAscending) => Some(PriceKey)
    case _ => None
  }

  /** The descending key a sort option selects. */
  function DescendingKey(sorting: Option<ProductSortingOption>): Option<Product -> SortKey>
  {
    match sorting
    case Some(NameDescending) => Some(NameKey)
    case Some(PriceDescending) => Some(PriceKey)
    case _ => None
  }

  /** The listing specification built from the query parameters. */
  function ProductListSpec(brandId: Option<int>, typeId: Option<int>, searchValue: Option<string>, sorting: Option<ProductSortingOption>): (spec: QuerySpec<Product>)
    ensures spec.criteria == Some(ProductCriteria(brandId, typeId, searchValue))
    ensures spec.includes == [ProductBrand, ProductType]
    ensures spec.orderBy.None? || spec.orderByDesc.None?
    ensures sorting.None? || sorting.value.Undefined? ==> spec.orderBy.None? && spec.orderByDesc.None?
    ensures sorting == Some(NameAscending) ==> spec.orderBy == Some(NameKey) && spec.orderByDesc.None?
    ensures sorting == Some(PriceAscending) ==> spec.orderBy == Some(PriceKey) && spec.orderByDesc.None?
    ensures sorting == Some(NameDescending) ==> spec.orderByDesc == Some(NameKey) && spec.orderBy.None?
    ensures sorting == Some(PriceDescending) ==> spec.orderByDesc == Some(PriceKey) && spec.orderBy.None?
    ensures !spec.isPaginated
  {
    QuerySpec(Some(ProductCriteria(brandId, typeId, searchValue)), [ProductBrand, ProductType],
              AscendingKey(sorting), DescendingKey(sorting), 0, 0, false)
  }

  /** The count specification: the same filter, no includes, no sort. */
  function ProductCountSpec(brandId: Option<int>, typeId: Option<int>, searchValue: Option<string>): (spec: QuerySpec<Product>)
    ensures spec.criteria == ProductListSpec(brandId, typeId, searchValue, None).criteria
    ensures spec.includes == [] && spec.orderBy.None? && spec.orderByDesc.None?
  {
    QuerySpec(Some(ProductCriteria(brandId, typeId, searchValue)), [], None, None, 0, 0, false)
  }

  /** The lookup of one product by id, with brand and type. */
  function ProductByIdSpec(id: int): (spec: QuerySpec<Product>)
    ensures spec.includes == ProductListSpec(None, None, None, None).includes
    ensures spec.orderBy.None? && spec.orderByDesc.None?
    ensures spec.criteria.Some? && forall p :: spec.criteria.value(p) <==> p.id == id
  {
    QuerySpec(Some((p: Product) => p.id == id), [ProductBrand, ProductType], None, None, 0, 0, false)
  }

  /** The listing constructor. */
  method NewProductSpecifications(param: ProductQueryParam) returns (spec: BaseSpecification<Product>)
    ensures fresh(spec)
    ensures spec.View() == ProductListSpec(param.brandId, param.typeId, param.searchValue, param.sortingOption)
  {
    spec := new BaseSpecification(ProductCriteria(param.brandId, param.typeId, param.searchValue));
    spec.AddInclude(ProductBrand);
    spec.AddInclude(ProductType);
    match param.sortingOption
    case Some(NameAscending) => spec.AddOrderBy(NameKey);
    case Some(NameDescending) => spec.AddOrderByDesc(NameKey);
    case Some(PriceAscending) => spec.AddOrderBy(PriceKey);
    case Some(PriceDescending) => spec.AddOrderByDesc(PriceKey);
    case _ =>
  }

  /** The by-id constructor. */
  method NewProductSpecificationsById(id: int) returns (spec: BaseSpecification<Product>)
    ensures fresh(spec)
    ensures spec.View() == ProductByIdSpec(id)
  {
    spec := new BaseSpecification((p: Product) => p.id == id);
    spec.AddInclude(ProductBrand);
    spec.AddInclude(ProductType);
  }

  /** The count constructor: the filter alone. */
  method NewCountProductSpecifications(param: ProductQueryParam) returns (spec: BaseSpecification<Product>)
    ensures fresh(spec)
    ensures spec.View() == ProductCountSpec(param.brandId, param.typeId, param.searchValue)
  {
    spec := new BaseSpecification(ProductCriteria(param.brandId, param.typeId, param.searchValue));
  }

  /** The search ignores letter case: a search value and its lower-cased form select the same products. */
  lemma SearchIgnoresCase(brandId: Option<int>, typeId: Option<int>, search: string, p: Product)
    ensures ProductCriteria(brandId, typeId, Some(search))(p) == ProductCriteria(brandId, typeId, Some(ToLower(search)))(p)
  {
    ToLowerIdempotent(search);
  }

  /** With no brand, no type and no search text, every product matches. */
  lemma NoFilterMatchesAll(searchValue: Option<string>, p: Product)
    requires searchValue.None? || searchValue.value == []
    ensures ProductCriteria(None, None, searchValue)(p)
  {
  }

  /** The count returns as many rows as the listing with any sort option. */
  lemma CountMatchesListing(products: seq<Product>, brandId: Option<int>, typeId: Option<int>, searchValue: Option<string>, sorting: Option<ProductSortingOption>)
    ensures |CreateQuery(products, ProductCountSpec(brandId, typeId, searchValue)).rows|
         == |CreateQuery(products, ProductListSpec(brandId, typeId, searchValue, sorting)).rows|
  {
    SameCriteriaSameCount(products, ProductCountSpec(brandId, typeId, searchValue),
                          ProductListSpec(brandId, typeId, searchValue, sorting));
  }

  /** The listing comes back ordered by the key and in the direction the sort option names. */
  lemma {:induction false} ListingFollowsSortOption(products: seq<Product>, brandId: Option<int>, typeId: Option<int>, searchValue: Option<string>, sorting: Option<ProductSortingOption>)
    ensures sorting == Some(NameAscending) ==> SortedBy(CreateQuery(products, ProductListSpec(brandId, typeId, searchValue, sorting)).rows, NameKey, false)
    ensures sorting == Some(PriceAscending) ==> SortedBy(CreateQuery(products, ProductListSpec(brandId, typeId, searchValue, sorting)).rows, PriceKey, false)
    ensures sorting == Some(NameDescending) ==> SortedBy(CreateQuery(products, ProductListSpec(brandId, typeId, searchValue, sorting)).rows, NameKey, true)
    ensures sorting == Some(PriceDescending) ==> SortedBy(CreateQuery(products, ProductListSpec(brandId, typeId, searchValue, sorting)).rows, PriceKey, true)
  {
    var spec := ProductListSpec(brandId, typeId, searchValue, sorting);
    if spec.orderByDesc.Some? {
      CreateQueryDescending(products, spec);
    } else if spec.orderBy.Some? {
      CreateQueryAscending(products, spec);
    }
  }

  /** With no filter the count is the number of products. */
  lemma UnfilteredCountIsAll(products: seq<Product>)
    ensures |CreateQuery(products, ProductCountSpec(None, None, None)).rows| == |products|
  {
    var spec := ProductCountSpec(None, None, None);
    CreateQueryPermutesFiltered(products, spec);
    forall x | x in products
      ensures multiset(Filtered(products, spec))[x] == multiset(products)[x]
    {
      NoFilterMatchesAll(None, x);
    }
    assert multiset(Filtered(products, spec)) == multiset(products);
  }
}
