/** The cart page of src/pages/CartPage.tsx: the totals effect and the three
    list updates. */
module Cart {
  import opened Lists
  import opened ClientModel

  datatype CartLine = CartLine(product: CatalogItem, quantity: int)

  const TaxRate: real := 0.08
  const FreeShippingOver: real := 100.0
  const ShippingFee: real := 9.99

  function LineAmount(line: CartLine): real {
    line.product.price * line.quantity as real
  }

  /** `cartItems.reduce((sum, item) => sum + price * quantity, 0)`: a left fold. */
  function Subtotal(cart: seq<CartLine>): (s: real)
    ensures (forall i :: 0 <= i < |cart| ==> LineAmount(cart[i]) >= 0.0) ==> s >= 0.0
  {
    if |cart| == 0 then 0.0 else Subtotal(cart[..|cart| - 1]) + LineAmount(cart[|cart| - 1])
  }

  /** The subtotal of two carts side by side is the sum of their subtotals. */
  lemma {:induction false} SubtotalConcat(a: seq<CartLine>, b: seq<CartLine>)
    ensures Subtotal(a + b) == Subtotal(a) + Subtotal(b)
  {
    if |b| == 0 {
      assert a + b == a;
    } else {
      var b' := b[..|b| - 1];
      assert (a + b)[..|a + b| - 1] == a + b';
      assert (a + b)[|a + b| - 1] == b[|b| - 1];
      SubtotalConcat(a, b');
    }
  }

  datatype Totals = Totals(subtotal: real, tax: real, shipping: real, total: real)

  /** The totals effect: 8% tax, free shipping strictly over $100, and the sum. */
  function CartTotals(cart: seq<CartLine>): (t: Totals)
    ensures t.subtotal == Subtotal(cart)
    ensures t.tax == TaxRate * t.subtotal
    ensures t.shipping == 0.0 <==> t.subtotal > FreeShippingOver
    ensures t.shipping != 0.0 ==> t.shipping == ShippingFee
    ensures t.total == t.subtotal + t.tax + t.shipping
  {
    var subtotal := Subtotal(cart);
    var shipping := if subtotal > FreeShippingOver then 0.0 else ShippingFee;
    Totals(subtotal, subtotal * TaxRate, shipping, subtotal + subtotal * TaxRate + shipping)
  }

  /** A subtotal of exactly $100 still pays shipping, and an empty cart would
      total the shipping fee alone. */
  lemma ShippingBoundary(cart: seq<CartLine>)
    requires Subtotal(cart) == 100.0
    ensures CartTotals(cart).shipping == ShippingFee
    ensures CartTotals(cart).total == 117.99
    ensures CartTotals([]) == Totals(0.0, 0.0, ShippingFee, ShippingFee)
  {
  }

  /** Because shipping drops to zero past the threshold, adding a line can
      lower the total: $95 of goods costs more than $95 plus a $6 item. */
  lemma CrossingThresholdLowersTotal(cart: seq<CartLine>, extra: CartLine)
    requires Subtotal(cart) == 95.0 && LineAmount(extra) == 6.0
    ensures CartTotals(cart + [extra]).total < CartTotals(cart).total
  {
    SubtotalConcat(cart, [extra]);
    assert Subtotal([extra]) == 6.0 by {
      assert [extra][..0] == [];
    }
  }

  /** Adding a line of non-negative value lowers the total exactly when the
      subtotal crosses the free-shipping threshold and the line with its tax
      costs less than the shipping saved. */
  lemma AddingLineLowersTotalIff(cart: seq<CartLine>, extra: CartLine)
    requires LineAmount(extra) >= 0.0
    ensures CartTotals(cart + [extra]).total < CartTotals(cart).total <==>
      && Subtotal(cart) <= FreeShippingOver < Subtotal(cart) + LineAmount(extra)
      && LineAmount(extra) * (1.0 + TaxRate) < ShippingFee
  {
    SubtotalConcat(cart, [extra]);
    assert Subtotal([extra]) == LineAmount(extra) by {
      assert [extra][..0] == [];
    }
  }

  /** `handleUpdateQuantity`: every line for `productId` gets the new quantity. */
  function UpdateQuantity(cart: seq<CartLine>, productId: Key, quantity: int): (r: seq<CartLine>)
    ensures |r| == |cart|
    ensures forall i :: 0 <= i < |cart| ==>
      r[i].product == cart[i].product &&
      r[i].quantity == (if cart[i].product.id == productId then quantity else cart[i].quantity)
  {
    seq(|cart|, i requires 0 <= i < |cart| =>
      if cart[i].product.id == productId then cart[i].(quantity := quantity) else cart[i])
  }

  function IsFor(productId: Key): CartLine -> bool {
    (line: CartLine) => line.product.id == productId
  }

  function NotFor(productId: Key): CartLine -> bool {
    (line: CartLine) => line.product.id != productId
  }

  /** `handleRemoveItem`: drop every line for `productId`, keeping the rest in order. */
  function Remove(cart: seq<CartLine>, productId: Key): (r: seq<CartLine>)
    ensures forall i :: 0 <= i < |r| ==> r[i].product.id != productId && r[i] in cart
    ensures forall i :: 0 <= i < |cart| && cart[i].product.id != productId ==> cart[i] in r
  {
    Filter(cart, NotFor(productId))
  }

  /** `handleClearCart`. */
  function Clear(cart: seq<CartLine>): (r: seq<CartLine>)
    ensures |r| == 0
  {
    []
  }

  /** A single line goes to exactly one side of the split. */
  lemma SubtotalPartitionOne(x: CartLine, productId: Key)
    ensures Subtotal([x]) == LineAmount(x)
    ensures Subtotal(Filter([x], IsFor(productId))) + Subtotal(Remove([x], productId)) == LineAmount(x)
  {
    assert [x][..0] == [];
    assert [x][1..] == [];
    if x.product.id == productId {
      assert Filter([x], IsFor(productId)) == [x];
      assert Remove([x], productId) == [];
    } else {
      assert Filter([x], IsFor(productId)) == [];
      assert Remove([x], productId) == [x];
    }
  }

  /** The subtotal splits into the lines for one product and all the others. */
  lemma {:induction false} SubtotalPartition(cart: seq<CartLine>, productId: Key)
    ensures Subtotal(cart) == Subtotal(Filter(cart, IsFor(productId))) + Subtotal(Remove(cart, productId))
  {
    if |cart| > 0 {
      var x, tail := cart[0], cart[1..];
      assert cart == [x] + tail;
      SubtotalPartition(tail, productId);
      SubtotalPartitionOne(x, productId);
      SubtotalConcat([x], tail);
      FilterConcat([x], tail, IsFor(productId));
      FilterConcat([x], tail, NotFor(productId));
      SubtotalConcat(Filter([x], IsFor(productId)), Filter(tail, IsFor(productId)));
      SubtotalConcat(Remove([x], productId), Remove(tail, productId));
    }
  }

  /** Updating one product's quantity leaves the other lines exactly as they were. */
  lemma {:induction false} UpdateSparesOthers(cart: seq<CartLine>, productId: Key, quantity: int)
    ensures Remove(UpdateQuantity(cart, productId, quantity), productId) == Remove(cart, productId)
  {
    if |cart| > 0 {
      var updated := UpdateQuantity(cart, productId, quantity);
      assert updated[1..] == UpdateQuantity(cart[1..], productId, quantity);
      UpdateSparesOthers(cart[1..], productId, quantity);
    }
  }

  /** So an update changes the subtotal only through the updated product's lines. */
  lemma UpdateChangesOnlyItsAmount(cart: seq<CartLine>, productId: Key, quantity: int)
    ensures var updated := UpdateQuantity(cart, productId, quantity);
      Subtotal(updated) - Subtotal(Filter(updated, IsFor(productId))) ==
      Subtotal(cart) - Subtotal(Filter(cart, IsFor(productId)))
  {
    SubtotalPartition(cart, productId);
    SubtotalPartition(UpdateQuantity(cart, productId, quantity), productId);
    UpdateSparesOthers(cart, productId, quantity);
  }

  /** Removing twice is removing once, and a removed product no longer counts. */
  lemma RemoveLaws(cart: seq<CartLine>, productId: Key)
    ensures Remove(Remove(cart, productId), productId) == Remove(cart, productId)
    ensures Subtotal(Remove(cart, productId)) == Subtotal(cart) - Subtotal(Filter(cart, IsFor(productId)))
  {
    FilterIdempotent(cart, NotFor(productId));
    SubtotalPartition(cart, productId);
  }
}
