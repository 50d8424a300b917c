/** The quantity stepper and discount badge of
    src/components/products/ProductDetails.tsx. */
module ProductDetailsView {
  import opened Common
  import opened ClientModel

  const InitialQuantity := 1

  /** `decreaseQuantity`: never below 1 by this button. */
  function Decrease(q: int): (r: int)
    ensures q > 1 ==> r == q - 1
    ensures q <= 1 ==> r == q
  {
    if q > 1 then q - 1 else q
  }

  /** `increaseQuantity`: no upper bound, and minus undoes it from any
      quantity the buttons can reach. */
  function Increase(q: int): (r: int)
    ensures r == q + 1
    ensures q >= 1 ==> Decrease(r) == q
  {
    q + 1
  }

  datatype StepperEvent = Inc | Dec | Typed(parsed: Option<int>)

  function Apply(q: int, event: StepperEvent): int {
    match event
    case Inc => Increase(q)
    case Dec => Decrease(q)
    case Typed(parsed) => ParsedOrOne(parsed)
  }

  /** The quantity after a run of events, oldest first. */
  function Run(q: int, events: seq<StepperEvent>): int {
    if |events| == 0 then q else Apply(Run(q, events[..|events| - 1]), events[|events| - 1])
  }

  predicate ButtonsOnly(events: seq<StepperEvent>) {
    forall i :: 0 <= i < |events| ==> !events[i].Typed?
  }

  /** Pressing only the buttons keeps the quantity at 1 or more. */
  lemma {:induction false} ButtonsKeepPositive(q: int, events: seq<StepperEvent>)
    requires q >= 1 && ButtonsOnly(events)
    ensures Run(q, events) >= 1
  {
    if |events| > 0 {
      ButtonsKeepPositive(q, events[..|events| - 1]);
    }
  }

  /** The number field, unlike the buttons, stores a negative value as typed,
      and from there plus then minus no longer returns. */
  lemma TypedNegativeEscapes()
    ensures Run(InitialQuantity, [Typed(Some(-3))]) == -3
    ensures Run(InitialQuantity, [Typed(None)]) == 1
    ensures Run(InitialQuantity, [Typed(Some(0))]) == 1
    ensures Decrease(Increase(-3)) == -2
  {
    assert [Typed(Some(-3))][..0] == [];
    assert [Typed(None)][..0] == [];
    assert [Typed(Some(0))][..0] == [];
  }

  /** The discount percentage before rounding; no original price (or a zero
      one) means no discount. */
  function Discount(price: real, originalPrice: Option<real>): (d: real)
    ensures originalPrice.None? || originalPrice.value == 0.0 ==> d == 0.0
    ensures originalPrice.Some? && 0.0 <= price <= originalPrice.value && originalPrice.value != 0.0 ==>
      0.0 <= d <= 100.0
    ensures originalPrice.Some? && originalPrice.value > 0.0 ==> (d > 0.0 <==> price < originalPrice.value)
  {
    if originalPrice.None? || originalPrice.value == 0.0 then 0.0
    else
      var o := originalPrice.value;
      DiscountBounds(price, o);
      (o - price) / o * 100.0
  }

  lemma DiscountBounds(price: real, o: real)
    requires o != 0.0
    ensures 0.0 <= price <= o ==> 0.0 <= (o - price) / o * 100.0 <= 100.0
    ensures o > 0.0 ==> ((o - price) / o * 100.0 > 0.0 <==> price < o)
  {
    if 0.0 <= price <= o {
      assert o > 0.0;
      assert (o - price) / o <= 1.0;
    }
  }
}
