/**
 * The picture address a product or an order line is shown with: nothing for
 * a missing or empty picture path, otherwise the configured base address
 * followed by the path. A base address that is not configured reads as
 * empty text, as string interpolation renders a missing value.
 */
module PictureUrl {
  import opened Wrappers
  import opened Domain

  /** The configured base address, empty when it is not set. */
  function BaseOf(baseUrl: Option<string>): string
  {
    if baseUrl.None? then "" else baseUrl.value
  }

  /** The address for a stored picture path. */
  function ResolvePictureUrl(baseUrl: Option<string>, pictureUrl: Option<string>): (r: string)
    ensures r == [] <==> pictureUrl.None? || pictureUrl.value == []
    ensures r != [] ==>
      && |r| == |BaseOf(baseUrl)| + |pictureUrl.value|
      && r[..|BaseOf(baseUrl)|] == BaseOf(baseUrl)
      && r[|BaseOf(baseUrl)|..] == pictureUrl.value
  {
    if pictureUrl.None? || pictureUrl.value == [] then "" else BaseOf(baseUrl) + pictureUrl.value
  }

  /** The address a product is shown with. */
  function ProductPictureUrl(baseUrl: Option<string>, p: Product): string
  {
    ResolvePictureUrl(baseUrl, p.pictureUrl)
  }

  /** The address an order line is shown with: the rule for products, applied to the path the line keeps. */
  function OrderItemPictureUrl(baseUrl: Option<string>, item: OrderItem): (r: string)
    ensures forall p: Product :: p.pictureUrl == item.product.pictureUrl ==> r == ProductPictureUrl(baseUrl, p)
  {
    ResolvePictureUrl(baseUrl, item.product.pictureUrl)
  }
}
