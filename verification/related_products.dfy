/** The "You May Also Like" strip of src/components/products/RelatedProducts.tsx:
    the category's products minus the current one, shown four at a time from
    a start index that the arrows move by one. */
module RelatedProducts {
  import opened Lists
  import opened ClientModel

  const DisplayCount := 4

  function NotCurrent(currentId: Key): CatalogItem -> bool {
    (p: CatalogItem) => p.id != currentId
  }

  /** `categoryProducts.filter(product => product.id !== currentProductId)`. */
  function Related(categoryProducts: seq<CatalogItem>, currentId: Key): (r: seq<CatalogItem>)
    ensures forall i :: 0 <= i < |r| ==> r[i].id != currentId && r[i] in categoryProducts
    ensures forall i :: 0 <= i < |categoryProducts| && categoryProducts[i].id != currentId ==>
      categoryProducts[i] in r
  {
    Filter(categoryProducts, NotCurrent(currentId))
  }

  /** `nextProducts`: advance only while a later product is hidden. */
  function NextStart(start: int, len: nat): (s: int)
    ensures start + DisplayCount < len ==> s == start + 1
    ensures start + DisplayCount >= len ==> s == start
  {
    if start + DisplayCount < len then start + 1 else start
  }

  /** `prevProducts`: go back only from a positive start. */
  function PrevStart(start: int): (s: int)
    ensures start > 0 ==> s == start - 1
    ensures start <= 0 ==> s == start
  {
    if start > 0 then start - 1 else start
  }

  /** The left arrow's `disabled`: exactly when pressing it would change
      nothing, for every start the arrows can produce. */
  function PrevDisabled(start: int): (d: bool)
    ensures start >= 0 ==> (d <==> PrevStart(start) == start)
  {
    start == 0
  }

  /** The right arrow's `disabled`: exactly when pressing it would change nothing. */
  function NextDisabled(start: int, len: nat): (d: bool)
    ensures d <==> NextStart(start, len) == start
  {
    start + DisplayCount >= len
  }

  /** The start index stays between 0 and the last full window. */
  predicate ValidStart(start: int, len: nat) {
    0 <= start <= (if len < DisplayCount then 0 else len - DisplayCount)
  }

  /** Both arrows keep the start valid. */
  lemma ArrowsKeepStartValid(start: int, len: nat)
    requires ValidStart(start, len)
    ensures ValidStart(NextStart(start, len), len)
    ensures ValidStart(PrevStart(start), len)
  {
  }

  /** `relatedProducts.slice(startIndex, startIndex + displayCount)`. */
  function Window(related: seq<CatalogItem>, start: int): (w: seq<CatalogItem>)
    ensures |w| <= DisplayCount
    ensures ValidStart(start, |related|) ==>
      && |w| == (if |related| < DisplayCount then |related| else DisplayCount)
      && forall k :: 0 <= k < |w| ==> w[k] == related[start + k]
  {
    var w := Slice(related, start, start + DisplayCount);
    assert |w| <= DisplayCount by {
      var i, j := SliceBound(start, |related|), SliceBound(start + DisplayCount, |related|);
      assert j - i <= DisplayCount;
    }
    w
  }
}
