/** The field rules of `productSchema` in src/components/admin/ProductForm.tsx.
    Price and stock go through `z.coerce.number()`; `None` stands for the NaN
    that coercion yields for text that is not a number. */
module ProductFormRules {
  import opened Common

  datatype FormValues = FormValues(
    name: string,
    description: string,
    price: Option<real>,
    imageUrl: string,
    category: string,
    stock: Option<real>)

  datatype Field = Name | Description | Price | Category | Stock

  const MinPrice: real := 0.01

  predicate PriceOk(price: Option<real>) {
    price.Some? && price.value >= MinPrice
  }

  /** `.int().min(0)`: a whole number, not negative. */
  predicate StockOk(stock: Option<real>) {
    stock.Some? && stock.value.Floor as real == stock.value && stock.value >= 0.0
  }

  /** The fields whose rule fails, each reported under its own name. */
  function FailingFields(v: FormValues): (r: set<Field>)
    ensures Name in r <==> v.name == ""
    ensures Description in r <==> v.description == ""
    ensures Price in r <==> !PriceOk(v.price)
    ensures Category in r <==> v.category == ""
    ensures Stock in r <==> !StockOk(v.stock)
  {
    (if v.name == "" then {Name} else {})
    + (if v.description == "" then {Description} else {})
    + (if PriceOk(v.price) then {} else {Price})
    + (if v.category == "" then {Category} else {})
    + (if StockOk(v.stock) then {} else {Stock})
  }

  /** The form submits only when no field fails. */
  predicate Valid(v: FormValues) {
    FailingFields(v) == {}
  }

  /** Valid exactly when every rule holds together. */
  lemma ValidIff(v: FormValues)
    ensures Valid(v) <==>
      && v.name != "" && v.description != "" && v.category != ""
      && v.price.Some? && v.price.value >= 0.01
      && v.stock.Some? && v.stock.value >= 0.0 && v.stock.value.Floor as real == v.stock.value
  {
    var r := FailingFields(v);
    if r != {} {
      var f :| f in r;
      assert f.Name? || f.Description? || f.Price? || f.Category? || f.Stock?;
    }
  }

  /** A price of exactly one cent passes and anything below fails; a
      fractional stock fails. */
  lemma RuleBoundaries()
    ensures PriceOk(Some(0.01)) && !PriceOk(Some(0.0)) && !PriceOk(None)
    ensures StockOk(Some(0.0)) && !StockOk(Some(1.5)) && !StockOk(Some(-1.0))
  {
    assert (1.5).Floor == 1;
  }
}
