/** The category tabs of src/components/home/FeaturedProducts.tsx. */
module FeaturedProducts {
  import opened Lists
  import opened ClientModel

  const AllTab := "All"
  const Tabs := ["All", "Electronics", "Fashion", "Home & Garden", "Beauty", "Sports"]

  function InCategory(tab: string): CatalogItem -> bool {
    (p: CatalogItem) => p.category == tab
  }

  /** `filteredProducts` for the active tab. */
  function TabFilter(products: seq<CatalogItem>, tab: string): (r: seq<CatalogItem>)
    ensures tab == AllTab ==> r == products
    ensures tab != AllTab ==>
      && (forall i :: 0 <= i < |r| ==> r[i].category == tab && r[i] in products)
      && (forall i :: 0 <= i < |products| && products[i].category == tab ==> products[i] in r)
  {
    if tab == AllTab then products else Filter(products, InCategory(tab))
  }

  /** Every tab shows a selection of the products in their original order, and
      filtering what a tab shows by the same tab shows it again unchanged. */
  lemma TabFilterLaws(products: seq<CatalogItem>, tab: string, more: seq<CatalogItem>)
    ensures |TabFilter(products, tab)| <= |products|
    ensures TabFilter(TabFilter(products, tab), tab) == TabFilter(products, tab)
    ensures TabFilter(products + more, tab) == TabFilter(products, tab) + TabFilter(more, tab)
  {
    if tab != AllTab {
      FilterIdempotent(products, InCategory(tab));
      FilterConcat(products, more, InCategory(tab));
    }
  }
}
