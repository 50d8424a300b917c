/** The category cards of src/components/admin/CategoryList.tsx: one card per
    category with the number of products in it, or a single placeholder card. */
module CategoryListView {
  import opened Lists
  import opened AdminProducts

  function InCategory(category: string): AdminProduct -> bool {
    (p: AdminProduct) => p.category == category
  }

  /** `products.filter(p => p.category === category).length`. */
  function CategoryCount(products: seq<AdminProduct>, category: string): (n: nat)
    ensures n <= |products|
  {
    |Filter(products, InCategory(category))|
  }

  /** The count is the number of positions holding that exact category. */
  lemma {:induction false} CategoryCountIsCountOf(products: seq<AdminProduct>, category: string)
    ensures CategoryCount(products, category) == CountOf(CategoryNames(products), category)
  {
    if |products| > 0 {
      var p, x := products[..|products| - 1], products[|products| - 1];
      assert products == p + [x];
      FilterConcat(p, [x], InCategory(category));
      assert [x][1..] == [];
      var names := CategoryNames(products);
      assert names[..|names| - 1] == CategoryNames(p);
      CategoryCountIsCountOf(p, category);
    }
  }

  datatype CategoryCard = NoCategories | CategoryCard(category: string, count: nat)

  function CardsFor(categories: seq<string>, products: seq<AdminProduct>): (r: seq<CategoryCard>)
    ensures |r| == |categories|
    ensures forall i :: 0 <= i < |categories| ==>
      r[i] == CategoryCard(categories[i], CategoryCount(products, categories[i]))
  {
    seq(|categories|, i requires 0 <= i < |categories| =>
      CategoryCard(categories[i], CategoryCount(products, categories[i])))
  }

  /** What the list renders. */
  function Cards(categories: seq<string>, products: seq<AdminProduct>): (r: seq<CategoryCard>)
    ensures |categories| == 0 ==> r == [NoCategories]
    ensures |categories| > 0 ==> r == CardsFor(categories, products)
  {
    if |categories| == 0 then [NoCategories] else CardsFor(categories, products)
  }

  /** The sum of the counts shown. */
  function CountTotal(cards: seq<CategoryCard>): nat {
    if |cards| == 0 then 0
    else (if cards[0].CategoryCard? then cards[0].count else 0) + CountTotal(cards[1..])
  }

  lemma {:induction false} CountTotalIsSumCounts(categories: seq<string>, products: seq<AdminProduct>)
    ensures CountTotal(CardsFor(categories, products)) == SumCounts(categories, CategoryNames(products))
  {
    if |categories| > 0 {
      assert CardsFor(categories, products)[1..] == CardsFor(categories[1..], products);
      CountTotalIsSumCounts(categories[1..], products);
      CategoryCountIsCountOf(products, categories[0]);
    }
  }

  /** With the dashboard's categories, every product is counted on exactly one
      card, so the counts add up to the number of products. */
  lemma CountsCoverProducts(products: seq<AdminProduct>)
    ensures CountTotal(Cards(Categories(products), products)) == |products|
  {
    var names := CategoryNames(products);
    if |products| == 0 {
      assert Categories(products) == [];
    } else {
      assert products[0].category in Categories(products);
      CountTotalIsSumCounts(Categories(products), products);
      SumCountsOfDedup(names);
    }
  }
}
