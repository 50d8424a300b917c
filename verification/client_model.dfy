/** The product record the storefront components share
    (src/components/products/ProductCard.tsx), and the JavaScript idioms they
    apply to it. Prices are exact reals: floating-point rounding is not part of
    this model. */
module ClientModel {
  import opened Common

  /** `id: string | number`; two keys are `===` exactly when they are equal here. */
  datatype Key = Num(n: int) | Text(s: string)

  datatype CatalogItem = CatalogItem(
    id: Key,
    name: string,
    price: real,
    category: string,
    imageUrl: Option<string>,
    image: Option<string>,
    originalPrice: Option<real>)

  /** A JavaScript string is truthy when it is present and not empty. */
  predicate Truthy(s: Option<string>) {
    s.Some? && s.value != ""
  }

  /** `a || b` over optional strings. */
  function OrElse(a: Option<string>, b: Option<string>): (r: Option<string>)
    ensures Truthy(a) ==> r == a
    ensures !Truthy(a) ==> r == b
  {
    if Truthy(a) then a else b
  }

  /** `parseInt(text) || 1`: the parsed number, with NaN (`None`) and 0 read as 1. */
  function ParsedOrOne(parsed: Option<int>): (q: int)
    ensures q != 0
    ensures parsed.Some? && parsed.value != 0 ==> q == parsed.value
    ensures parsed.None? || parsed.value == 0 ==> q == 1
  {
    if parsed.Some? && parsed.value != 0 then parsed.value else 1
  }

  /** `product.imageUrl || product.image || ""`: the first truthy image. */
  function CardImage(p: CatalogItem): (r: string)
    ensures Truthy(p.imageUrl) ==> r == p.imageUrl.value
    ensures !Truthy(p.imageUrl) && Truthy(p.image) ==> r == p.image.value
    ensures r == "" <==> !Truthy(p.imageUrl) && !Truthy(p.image)
  {
    var chosen := OrElse(p.imageUrl, p.image);
    if Truthy(chosen) then chosen.value else ""
  }
}
