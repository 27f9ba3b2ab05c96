/** The query parameters of the product listing, with its clamped page size. */
module ProductQuery {
  import opened Wrappers

  /** The sorting options; `Undefined` stands for a number no option is declared with. */
  datatype ProductSortingOption = NameAscending | NameDescending | PriceAscending | PriceDescending | Undefined(code: int)

  const DEFAULT_PAGE_SIZE: int := 5
  const MAX_PAGE_SIZE: int := 10
  const DEFAULT_PAGE_INDEX: int := 1

  /** What the page-size setter stores: values above the maximum become the maximum; there is no lower bound. */
  function ClampPageSize(value: int): (size: int)
    ensures size <= MAX_PAGE_SIZE
    ensures size <= value
    ensures value <= MAX_PAGE_SIZE ==> size == value
    ensures value > MAX_PAGE_SIZE ==> size == MAX_PAGE_SIZE
  {
    if value > MAX_PAGE_SIZE then MAX_PAGE_SIZE else value
  }

  /** Storing the stored value again changes nothing. */
  lemma ClampPageSizeIdempotent(value: int)
    ensures ClampPageSize(ClampPageSize(value)) == ClampPageSize(value)
  {
  }

  class ProductQueryParam {
    var brandId: Option<int>
    var typeId: Option<int>
    var sortingOption: Option<ProductSortingOption>
    var searchValue: Option<string>
    var pageIndex: int
    /** The backing field of the page size. */
    var pageSize: int

    constructor ()
      ensures brandId.None? && typeId.None? && sortingOption.None? && searchValue.None?
      ensures pageIndex == DEFAULT_PAGE_INDEX && pageSize == DEFAULT_PAGE_SIZE
    {
      brandId, typeId, sortingOption, searchValue := None, None, None, None;
      pageIndex := DEFAULT_PAGE_INDEX;
      pageSize := DEFAULT_PAGE_SIZE;
    }

    /** The page-size setter. */
    method SetPageSize(value: int)
      modifies this`pageSize
      ensures pageSize == ClampPageSize(value)
      ensures pageSize <= MAX_PAGE_SIZE
    {
      pageSize := if value > MAX_PAGE_SIZE then MAX_PAGE_SIZE else value;
    }
  }
}
