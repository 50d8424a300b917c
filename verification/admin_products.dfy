/** The admin product list as src/pages/admin/Dashboard.tsx and
    src/hooks/useProductManagement.ts keep it: categories derived from the
    list, the form's starting values, and the local updates after a delete,
    an edit or an add. The two files name the key `_id` and `id` and the
    image `imageUrl` and `image_url`; here they are `id` and `imageUrl`. */
module AdminProducts {
  import opened Common
  import opened Lists
  import opened ProductFormRules

  datatype AdminProduct = AdminProduct(
    id: string,
    name: string,
    description: string,
    price: real,
    imageUrl: string,
    category: string,
    stock: real)

  function CategoryNames(products: seq<AdminProduct>): (r: seq<string>)
    ensures |r| == |products|
    ensures forall i :: 0 <= i < |products| ==> r[i] == products[i].category
  {
    seq(|products|, i requires 0 <= i < |products| => products[i].category)
  }

  /** `[...new Set(products.map(p => p.category))]`: each category once, in
      the order it first appears. */
  function Categories(products: seq<AdminProduct>): (r: seq<string>)
    ensures Distinct(r)
    ensures forall i :: 0 <= i < |r| ==> r[i] in CategoryNames(products)
    ensures forall i :: 0 <= i < |products| ==> products[i].category in r
    ensures forall i, j :: 0 <= i < j < |r| ==>
      FirstIndex(CategoryNames(products), r[i]) < FirstIndex(CategoryNames(products), r[j])
  {
    var names := CategoryNames(products);
    assert forall i :: 0 <= i < |products| ==> products[i].category == names[i];
    Dedup(names)
  }

  function Ids(products: seq<AdminProduct>): (r: seq<string>)
    ensures |r| == |products|
    ensures forall i :: 0 <= i < |products| ==> r[i] == products[i].id
  {
    seq(|products|, i requires 0 <= i < |products| => products[i].id)
  }

  /** `initialValues` / `initialFormValues`: the edited product's fields, or
      empty text and zeros for a new product. */
  function InitialFormValues(current: Option<AdminProduct>): (v: FormValues)
    ensures current.None? ==> v == FormValues("", "", Some(0.0), "", "", Some(0.0))
    ensures current.Some? ==>
      var p := current.value;
      v == FormValues(p.name, p.description, Some(p.price), p.imageUrl, p.category, Some(p.stock))
  {
    match current
    case None => FormValues("", "", Some(0.0), "", "", Some(0.0))
    case Some(p) => FormValues(p.name, p.description, Some(p.price), p.imageUrl, p.category, Some(p.stock))
  }

  /** An untouched add form cannot be submitted: four of its five fields fail,
      the price among them. */
  lemma UntouchedAddFormRejected()
    ensures FailingFields(InitialFormValues(None)) == {Name, Description, Price, Category}
    ensures !Valid(InitialFormValues(None))
  {
    assert (0.0).Floor == 0;
  }

  /** The edit form opens valid exactly for products that meet the rules. */
  lemma EditFormValidIff(p: AdminProduct)
    ensures Valid(InitialFormValues(Some(p))) <==>
      p.name != "" && p.description != "" && p.category != "" && p.price >= MinPrice &&
      p.stock >= 0.0 && p.stock.Floor as real == p.stock
  {
    ValidIff(InitialFormValues(Some(p)));
  }

  function NotId(id: string): AdminProduct -> bool {
    (p: AdminProduct) => p.id != id
  }

  /** `products.filter(p => p.id !== id)` after a successful delete. */
  function DeleteById(products: seq<AdminProduct>, id: string): (r: seq<AdminProduct>)
    ensures forall i :: 0 <= i < |r| ==> r[i].id != id && r[i] in products
    ensures forall i :: 0 <= i < |products| && products[i].id != id ==> products[i] in r
  {
    Filter(products, NotId(id))
  }

  /** The dashboard's edit: the matching entry becomes the server's reply. */
  function ReplaceById(products: seq<AdminProduct>, id: string, updated: AdminProduct): (r: seq<AdminProduct>)
    ensures |r| == |products|
    ensures forall i :: 0 <= i < |products| ==>
      r[i] == if products[i].id == id then updated else products[i]
  {
    seq(|products|, i requires 0 <= i < |products| =>
      if products[i].id == id then updated else products[i])
  }

  /** `{ ...p, ...data }`: every form field overwrites the product's, the id stays. */
  function Merge(p: AdminProduct, data: FormValues): (q: AdminProduct)
    requires Valid(data)
    ensures q.id == p.id
    ensures InitialFormValues(Some(q)) == data
  {
    ValidIff(data);
    AdminProduct(p.id, data.name, data.description, data.price.value, data.imageUrl, data.category, data.stock.value)
  }

  /** The hook's edit: the matching entries take the submitted values. */
  function MergeById(products: seq<AdminProduct>, id: string, data: FormValues): (r: seq<AdminProduct>)
    requires Valid(data)
    ensures |r| == |products|
    ensures Ids(r) == Ids(products)
    ensures forall i :: 0 <= i < |products| ==>
      r[i] == if products[i].id == id then Merge(products[i], data) else products[i]
  {
    var r := seq(|products|, i requires 0 <= i < |products| =>
      if products[i].id == id then Merge(products[i], data) else products[i]);
    assert Ids(r) == Ids(products);
    r
  }

  /** `[...products, added]`. */
  function Append(products: seq<AdminProduct>, added: AdminProduct): (r: seq<AdminProduct>)
    ensures |r| == |products| + 1 && r[..|products|] == products && r[|products|] == added
  {
    products + [added]
  }

  /** Replacing an entry by one with the same id, or merging into it, does not
      disturb the entries with other ids. */
  lemma {:induction false} EditsSpareOthers(products: seq<AdminProduct>, id: string, updated: AdminProduct, data: FormValues)
    requires updated.id == id && Valid(data)
    ensures DeleteById(ReplaceById(products, id, updated), id) == DeleteById(products, id)
    ensures DeleteById(MergeById(products, id, data), id) == DeleteById(products, id)
  {
    if |products| > 0 {
      assert ReplaceById(products, id, updated)[1..] == ReplaceById(products[1..], id, updated);
      assert MergeById(products, id, data)[1..] == MergeById(products[1..], id, data);
      EditsSpareOthers(products[1..], id, updated, data);
    }
  }

  /** Deleting an added product gives back the list before the add, when its
      id was new. */
  lemma AddThenDelete(products: seq<AdminProduct>, added: AdminProduct)
    requires added.id !in Ids(products)
    ensures DeleteById(Append(products, added), added.id) == products
  {
    FilterConcat(products, [added], NotId(added.id));
    assert forall i :: 0 <= i < |products| ==> products[i].id != added.id by {
      forall i | 0 <= i < |products|
        ensures products[i].id != added.id
      {
        assert Ids(products)[i] == products[i].id;
      }
    }
    FilterKeepsAll(products, NotId(added.id));
    assert [added][1..] == [];
  }

  /** The state `useProductManagement` keeps. */
  datatype HookState = HookState(
    products: seq<AdminProduct>,
    isModalOpen: bool,
    current: Option<AdminProduct>,
    formSubmitting: bool)

  /** `openAddModal`. */
  function OpenAddModal(s: HookState): (t: HookState)
    ensures t.isModalOpen && t.current.None?
    ensures t.products == s.products && t.formSubmitting == s.formSubmitting
  {
    s.(current := None, isModalOpen := true)
  }

  /** `openEditModal(product)`. */
  function OpenEditModal(s: HookState, product: AdminProduct): (t: HookState)
    ensures t.isModalOpen && t.current == Some(product)
    ensures t.products == s.products && t.formSubmitting == s.formSubmitting
  {
    s.(current := Some(product), isModalOpen := true)
  }

  /** `handleDeleteProduct(id)`: nothing unless confirmed and the write succeeds. */
  function HookDelete(s: HookState, id: string, confirmed: bool, succeeded: bool): (t: HookState)
    ensures confirmed && succeeded ==> t == s.(products := DeleteById(s.products, id))
    ensures !(confirmed && succeeded) ==> t == s
  {
    if confirmed && succeeded then s.(products := DeleteById(s.products, id)) else s
  }

  /** `onSubmitProduct(data)`: an edit when a product is current, an add
      otherwise; `inserted` is the row the store returns for an add. */
  function HookSubmit(s: HookState, data: FormValues, succeeded: bool, inserted: AdminProduct): (t: HookState)
    requires Valid(data)
    ensures !t.formSubmitting
    ensures t.current == s.current
    ensures t.isModalOpen == (s.isModalOpen && !succeeded)
    ensures !succeeded ==> t.products == s.products
    ensures succeeded && s.current.Some? ==> t.products == MergeById(s.products, s.current.value.id, data)
    ensures succeeded && s.current.None? ==> t.products == Append(s.products, inserted)
  {
    var busy := s.(formSubmitting := true);
    var done :=
      if !succeeded then busy
      else if busy.current.Some? then
        busy.(products := MergeById(busy.products, busy.current.value.id, data), isModalOpen := false)
      else
        busy.(products := Append(busy.products, inserted), isModalOpen := false);
    done.(formSubmitting := false)
  }

  /** An edit submitted through the hook keeps the list's ids, so distinct ids
      stay distinct. */
  lemma HookEditKeepsIds(s: HookState, data: FormValues, inserted: AdminProduct)
    requires Valid(data) && s.current.Some?
    ensures Ids(HookSubmit(s, data, true, inserted).products) == Ids(s.products)
  {
  }

  /** The dashboard's `onSubmitProduct`: `reply` is the product the server
      sends back, or `None` for an error reply. The result is the new list and
      whether the modal closes. */
  function DashboardSubmit(products: seq<AdminProduct>, current: Option<AdminProduct>, reply: Option<AdminProduct>)
    : (r: (seq<AdminProduct>, bool))
    ensures r.1 <==> reply.Some?
    ensures reply.None? ==> r.0 == products
    ensures reply.Some? && current.Some? ==> r.0 == ReplaceById(products, current.value.id, reply.value)
    ensures reply.Some? && current.None? ==> r.0 == Append(products, reply.value)
  {
    match reply
    case None => (products, false)
    case Some(p) =>
      if current.Some? then (ReplaceById(products, current.value.id, p), true)
      else (Append(products, p), true)
  }
}
