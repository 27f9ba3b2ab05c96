/** What the services compute over the lines of a basket against the product table. */
module BasketLines {
  import opened Wrappers
  import opened Domain
  import opened Store

  /** Whether the product table holds a product with the id. */
  predicate Stocked(products: seq<Product>, productId: int)
  {
    FindByKey(products, ProductId, productId).Some?
  }

  /** The sum of price times quantity over the basket lines. */
  function BasketTotal(items: seq<BasketItem>): Money
  {
    if items == [] then 0 else items[0].price * items[0].quantity + BasketTotal(items[1..])
  }

  /** The id of the first basket line, in basket order, whose product is not stored. */
  function FirstMissingProduct(items: seq<BasketItem>, products: seq<Product>): (r: Option<int>)
    ensures r.None? <==> forall j :: 0 <= j < |items| ==> Stocked(products, items[j].id)
    ensures r.Some? ==> exists k :: 0 <= k < |items| && items[k].id == r.value && !Stocked(products, items[k].id)
                                 && forall j :: 0 <= j < k ==> Stocked(products, items[j].id)
  {
    if items == [] then None
    else if !Stocked(products, items[0].id) then Some(items[0].id)
    else
      var rest := FirstMissingProduct(items[1..], products);
      assert forall j :: 1 <= j < |items| ==> items[j] == items[1..][j - 1];
      rest
  }
}
