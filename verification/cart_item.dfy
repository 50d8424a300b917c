/** One cart row, src/components/cart/CartItem.tsx: a local quantity kept in
    [1, 10], reported to the cart page on every change. */
module CartItemView {
  import opened Common
  import opened ClientModel
  import opened Cart

  const MinQuantity := 1
  const MaxQuantity := 10

  /** The two `if`s at the top of `handleQuantityChange`. */
  function Clamp(q: int): (r: int)
    ensures MinQuantity <= r <= MaxQuantity
    ensures MinQuantity <= q <= MaxQuantity ==> r == q
    ensures q < MinQuantity ==> r == MinQuantity
    ensures q > MaxQuantity ==> r == MaxQuantity
  {
    if q < MinQuantity then MinQuantity else if q > MaxQuantity then MaxQuantity else q
  }

  lemma ClampIdempotent(q: int)
    ensures Clamp(Clamp(q)) == Clamp(q)
  {
  }

  /** What one change does: the new local value, the value passed to
      `onUpdateQuantity`, and whether "Cart updated!" is shown. */
  datatype Change = Change(local: int, reported: int, notify: bool)

  /** `handleQuantityChange(requested)` in a row whose `quantity` prop is `prop`. */
  function HandleQuantityChange(prop: int, requested: int): (c: Change)
    ensures c.local == c.reported == Clamp(requested)
    ensures c.notify <==> c.local != prop
  {
    var q := Clamp(requested);
    Change(q, q, q != prop)
  }

  /** The row's three inputs: the minus and plus buttons and the number field. */
  datatype RowEvent = Minus | Plus | Typed(parsed: Option<int>)

  function Requested(local: int, event: RowEvent): int {
    match event
    case Minus => local - 1
    case Plus => local + 1
    case Typed(parsed) => ParsedOrOne(parsed)
  }

  function OnEvent(prop: int, local: int, event: RowEvent): (c: Change)
    ensures MinQuantity <= c.local <= MaxQuantity
    ensures event.Plus? ==> c.local == Clamp(local + 1)
    ensures event.Minus? ==> c.local == Clamp(local - 1)
    ensures event.Typed? ==> c.local == Clamp(ParsedOrOne(event.parsed))
    ensures c.reported == c.local && (c.notify <==> c.local != prop)
    ensures event.Typed? && (event.parsed.None? || event.parsed.value == 0) ==> c.local == 1
    ensures event.Plus? && local >= MaxQuantity ==> c.local == MaxQuantity
    ensures event.Minus? && local <= MinQuantity + 1 ==> c.local == MinQuantity
  {
    HandleQuantityChange(prop, Requested(local, event))
  }

  /** Inside the range, minus undoes plus, and plus undoes minus. */
  lemma PlusMinusInverse(prop: int, local: int)
    requires MinQuantity <= local <= MaxQuantity
    ensures local < MaxQuantity ==> OnEvent(prop, OnEvent(prop, local, Plus).local, Minus).local == local
    ensures local > MinQuantity ==> OnEvent(prop, OnEvent(prop, local, Minus).local, Plus).local == local
  {
  }

  /** `product.price * itemQuantity`. */
  function LineTotal(price: real, local: int): real {
    price * local as real
  }

  /** The reported value lands in the cart line for this product, so the line
      the cart page adds up is the one this row displays. */
  lemma ChangeReachesCart(cart: seq<CartLine>, i: int, local: int, event: RowEvent)
    requires 0 <= i < |cart|
    ensures var c := OnEvent(cart[i].quantity, local, event);
      var cart' := UpdateQuantity(cart, cart[i].product.id, c.reported);
      && cart'[i].quantity == c.local
      && MinQuantity <= cart'[i].quantity <= MaxQuantity
      && LineTotal(cart[i].product.price, c.local) == LineAmount(cart'[i])
  {
  }

  /** The notice compares with the prop, not with the value on screen: a row
      whose prop is 1 showing 2 goes to 1 silently, and one showing 3 goes to
      2 with a notice. */
  lemma NotifyComparesWithProp()
    ensures OnEvent(1, 2, Minus) == Change(1, 1, false)
    ensures OnEvent(1, 3, Minus) == Change(2, 2, true)
    ensures OnEvent(10, 10, Plus) == Change(10, 10, false)
  {
  }
}
