/**
 * The checks on a basket line in a request: the quantity lies between 1 and
 * 100, the price is at least one unit, and the picture, a non-nullable text
 * member, must be present. The inferred required check admits empty and
 * white-space text, and a JSON body keeps such text as it is, so only a
 * missing picture fails. The id and the name carry no check the model can
 * fail.
 */
module BasketItemValidation {
  import opened Wrappers
  import opened Domain

  const MIN_QUANTITY: int := 1
  const MAX_QUANTITY: int := 100

  /** The smallest price a line may carry: one currency unit. */
  const MIN_PRICE: Money := UNIT

  /** The names of the members of the line whose check fails. */
  function ValidationErrors(item: BasketItem): (errors: set<string>)
    ensures errors <= {"PictureUrl", "Price", "Quantity"}
    ensures "Name" !in errors
    ensures "Quantity" in errors <==> item.quantity < 1 || 100 < item.quantity
    ensures "Price" in errors <==> item.price < UNIT
    ensures "PictureUrl" in errors <==> item.pictureUrl.None?
  {
    (if item.pictureUrl.None? then {"PictureUrl"} else {})
      + (if item.price < MIN_PRICE then {"Price"} else {})
      + (if item.quantity < MIN_QUANTITY || MAX_QUANTITY < item.quantity then {"Quantity"} else {})
  }

  predicate ValidBasketItem(item: BasketItem)
  {
    ValidationErrors(item) == {}
  }

  /** A line passes exactly when its quantity and its price are in range and it has a picture. */
  lemma ValidBasketItemBounds(item: BasketItem)
    ensures ValidBasketItem(item) <==> 1 <= item.quantity <= 100 && item.price >= UNIT && item.pictureUrl.Some?
  {
    if !(1 <= item.quantity <= 100) {
      assert "Quantity" in ValidationErrors(item);
    }
    if item.price < UNIT {
      assert "Price" in ValidationErrors(item);
    }
    if item.pictureUrl.None? {
      assert "PictureUrl" in ValidationErrors(item);
    }
  }

  /**
   * The id, the name and the picture's text play no part in the checks; only
   * whether a picture is present does.
   */
  lemma ValidationIgnoresIdentity(item: BasketItem, id: int, name: string, pictureUrl: Option<string>)
    ensures pictureUrl.Some? == item.pictureUrl.Some? ==>
      ValidationErrors(item.(id := id, name := name, pictureUrl := pictureUrl)) == ValidationErrors(item)
    ensures ValidationErrors(item.(id := id, name := name, pictureUrl := pictureUrl)) - {"PictureUrl"}
      == ValidationErrors(item) - {"PictureUrl"}
  {
  }
}
