/** The product routes of src/server/api/routes/products.ts: public listing
    and lookup, and admin-only create, update and delete. Creation applies the
    product schema (src/server/models/Product.ts): required fields, the
    non-negative price, the trimmed name and the defaults. */
module ProductsRoute {
  import opened Common
  import opened Strings
  import opened ServerModel
  import opened Middleware

  const ProductNotFound := "Product not found"
  const ProductDeleted := "Product deleted successfully"
  const ProductInvalid := "Product validation failed"
  const DefaultImage := "/placeholder.svg"

  /** A JSON request body: any field may be missing. */
  datatype ProductBody = ProductBody(
    name: Option<string>,
    description: Option<string>,
    price: Option<int>,
    category: Option<string>,
    imageUrl: Option<string>,
    stock: Option<int>,
    featured: Option<bool>)

  /** `new Product(body)` followed by the schema's validation on save. */
  function NewProduct(body: ProductBody): (r: Result<Product, string>)
    ensures r.Ok? <==>
      && body.name.Some? && Trim(body.name.value) != ""
      && body.description.Some? && body.description.value != ""
      && body.price.Some? && body.price.value >= 0
      && body.category.Some? && body.category.value != ""
    ensures r.Ok? ==>
      && r.value.name == Trim(body.name.value)
      && r.value.description == body.description.value
      && r.value.price == body.price.value
      && r.value.category == body.category.value
      && r.value.imageUrl == body.imageUrl.GetOr(DefaultImage)
      && r.value.stock == body.stock.GetOr(0)
      && r.value.featured == body.featured.GetOr(false)
    ensures r.Err? ==> r.error == ProductInvalid
  {
    if body.name.None? || Trim(body.name.value) == ""
       || body.description.None? || body.description.value == ""
       || body.price.None? || body.price.value < 0
       || body.category.None? || body.category.value == ""
    then Err(ProductInvalid)
    else
      Ok(Product(Trim(body.name.value), body.description.value, body.price.value,
                 body.category.value, body.imageUrl.GetOr(DefaultImage),
                 body.stock.GetOr(0), body.featured.GetOr(false)))
  }

  /** `findByIdAndUpdate(id, body)`: the fields present in the body replace the
      stored ones (update validators do not run; the name is still trimmed). */
  function Patch(p: Product, body: ProductBody): (q: Product)
    ensures body.price.Some? ==> q.price == body.price.value
    ensures body.price.None? ==> q.price == p.price
    ensures body.stock.Some? ==> q.stock == body.stock.value
    ensures body.stock.None? ==> q.stock == p.stock
    ensures body.name.None? ==> q.name == p.name
    ensures body.name.Some? ==> q.name == Trim(body.name.value)
    ensures q.description == body.description.GetOr(p.description)
    ensures q.category == body.category.GetOr(p.category)
    ensures q.imageUrl == body.imageUrl.GetOr(p.imageUrl)
    ensures q.featured == body.featured.GetOr(p.featured)
  {
    Product(
      if body.name.Some? then Trim(body.name.value) else p.name,
      body.description.GetOr(p.description),
      body.price.GetOr(p.price),
      body.category.GetOr(p.category),
      body.imageUrl.GetOr(p.imageUrl),
      body.stock.GetOr(p.stock),
      body.featured.GetOr(p.featured))
  }

  const EmptyBody := ProductBody(None, None, None, None, None, None, None)

  /** An empty body changes nothing, and applying the same body twice is
      applying it once. */
  lemma PatchLaws(p: Product, body: ProductBody)
    ensures Patch(p, EmptyBody) == p
    ensures Patch(Patch(p, body), body) == Patch(p, body)
  {
    var q := Patch(p, body);
    if body.name.Some? {
      TrimIdempotent(body.name.value);
      assert Patch(q, body).name == q.name;
    }
  }

  lemma TrimIdempotent(s: string)
    ensures Trim(Trim(s)) == Trim(s)
  {
    var t := TrimStart(s);
    var u := TrimEnd(t);
    assert u == [] || !IsSpace(u[0]);
    assert TrimStart(u) == u;
    assert TrimEnd(u) == u;
  }

  /** GET `/`: every stored product. */
  function ListProducts(db: Db): (r: Response)
    ensures r.status == 200 && r.body.ProductsJson? && r.body.products == db.products
  {
    Response(200, ProductsJson(db.products))
  }

  /** GET `/:id`: the stored product, or 404. The id may be typed in either
      letter case; the reply carries the stored id. */
  function GetProduct(db: Db, productId: Id): (r: Response)
    ensures IsObjectId(productId) && Canonical(productId) in db.products ==>
      r == Response(200, ProductJson(Canonical(productId), db.products[Canonical(productId)]))
    ensures IsObjectId(productId) && Canonical(productId) !in db.products ==>
      r == Response(404, Message(ProductNotFound))
    ensures !IsObjectId(productId) ==> r.status == 500
  {
    match Find(db.products, productId)
    case CastFailure => Response(500, Message(CastErrorText))
    case Missing => Response(404, Message(ProductNotFound))
    case Found(p) => Response(200, ProductJson(Canonical(productId), p))
  }

  /** POST `/`: save a new product under the fresh id `newId`. */
  function CreateProduct(db: Db, body: ProductBody, newId: Id): (r: Served)
    requires newId !in db.products
    ensures r.db.users == db.users && r.db.orders == db.orders
    ensures r.response.status == 201 <==> NewProduct(body).Ok?
    ensures r.response.status == 201 ==>
      && r.db.products == db.products[newId := NewProduct(body).value]
      && r.response.body == ProductJson(newId, NewProduct(body).value)
    ensures r.response.status != 201 ==> r == Served(db, Response(400, Message(ProductInvalid)))
  {
    match NewProduct(body)
    case Err(message) => Served(db, Response(400, Message(message)))
    case Ok(p) => Served(db.(products := db.products[newId := p]), Response(201, ProductJson(newId, p)))
  }

  /** PUT `/:id`: update a stored product, or 404. */
  function UpdateProduct(db: Db, productId: Id, body: ProductBody): (r: Served)
    ensures r.db.users == db.users && r.db.orders == db.orders
    ensures IsObjectId(productId) && Canonical(productId) !in db.products ==>
      r == Served(db, Response(404, Message(ProductNotFound)))
    ensures r.response.status == 200 <==> IsObjectId(productId) && Canonical(productId) in db.products
    ensures r.response.status == 200 ==>
      var key := Canonical(productId);
      var updated := Patch(db.products[key], body);
      && r.db.products == db.products[key := updated]
      && r.response.body == ProductJson(key, updated)
    ensures r.response.status != 200 ==> r.db == db
  {
    match Find(db.products, productId)
    case CastFailure => Served(db, Response(400, Message(CastErrorText)))
    case Missing => Served(db, Response(404, Message(ProductNotFound)))
    case Found(p) =>
      var key := Canonical(productId);
      var updated := Patch(p, body);
      Served(db.(products := db.products[key := updated]), Response(200, ProductJson(key, updated)))
  }

  /** DELETE `/:id`: remove exactly that product, or 404. */
  function DeleteProduct(db: Db, productId: Id): (r: Served)
    ensures r.db.users == db.users && r.db.orders == db.orders
    ensures IsObjectId(productId) && Canonical(productId) !in db.products ==>
      r == Served(db, Response(404, Message(ProductNotFound)))
    ensures r.response.status == 200 <==> IsObjectId(productId) && Canonical(productId) in db.products
    ensures r.response.status == 200 ==>
      && r.db.products.Keys == db.products.Keys - {Canonical(productId)}
      && (forall id :: id in r.db.products ==> r.db.products[id] == db.products[id])
      && r.response.body == Message(ProductDeleted)
    ensures r.response.status != 200 ==> r.db == db
  {
    match Find(db.products, productId)
    case CastFailure => Served(db, Response(500, Message(CastErrorText)))
    case Missing => Served(db, Response(404, Message(ProductNotFound)))
    case Found(_) =>
      Served(db.(products := db.products - {Canonical(productId)}), Response(200, Message(ProductDeleted)))
  }

  /** The three admin routes behind `authenticate, isAdmin`. */
  datatype AdminRequest =
    | Create(body: ProductBody, newId: Id)
    | Update(productId: Id, body: ProductBody)
    | Delete(productId: Id)

  function AdminProductRoute(
    db: Db, authorization: Option<string>, verify: string -> Option<Id>, request: AdminRequest): (r: Served)
    requires request.Create? ==> request.newId !in db.products
    ensures AdminAccess(db.users, authorization, verify).Denied? ==>
      r == Served(db, AdminAccess(db.users, authorization, verify).response)
    ensures AdminAccess(db.users, authorization, verify).Granted? ==>
      r == match request
           case Create(body, newId) => CreateProduct(db, body, newId)
           case Update(productId, body) => UpdateProduct(db, productId, body)
           case Delete(productId) => DeleteProduct(db, productId)
  {
    match AdminAccess(db.users, authorization, verify)
    case Denied(response) => Served(db, response)
    case Granted(_) =>
      match request
      case Create(body, newId) => CreateProduct(db, body, newId)
      case Update(productId, body) => UpdateProduct(db, productId, body)
      case Delete(productId) => DeleteProduct(db, productId)
  }

  /** The public routes read what the admin routes wrote: a created product is
      found, an update is seen, and a deleted product is gone. */
  lemma WritesAreVisible(db: Db, body: ProductBody, newId: Id, productId: Id, patch: ProductBody)
    requires newId !in db.products && IsCanonical(newId)
    requires IsObjectId(productId) && Canonical(productId) in db.products
    ensures NewProduct(body).Ok? ==>
      GetProduct(CreateProduct(db, body, newId).db, newId) ==
        Response(200, ProductJson(newId, NewProduct(body).value))
    ensures GetProduct(UpdateProduct(db, productId, patch).db, productId) ==
      Response(200, ProductJson(Canonical(productId), Patch(db.products[Canonical(productId)], patch)))
    ensures GetProduct(DeleteProduct(db, productId).db, productId) == Response(404, Message(ProductNotFound))
  {
  }

  /** Deleting leaves every other product readable exactly as before, and no
      spelling of the deleted id finds it any more. */
  lemma DeleteSparesOthers(db: Db, productId: Id, other: Id)
    ensures Canonical(other) != Canonical(productId) ==>
      GetProduct(DeleteProduct(db, productId).db, other) == GetProduct(db, other)
    ensures IsObjectId(other) && Canonical(other) == Canonical(productId) ==>
      GetProduct(DeleteProduct(db, productId).db, other) == Response(404, Message(ProductNotFound))
  {
  }

  /** Two spellings of one id read the same product. */
  lemma GetProductIgnoresCase(db: Db, a: Id, b: Id)
    requires Canonical(a) == Canonical(b)
    ensures GetProduct(db, a) == GetProduct(db, b)
  {
    FindIgnoresCase(db.products, a, b);
  }

  /** The writes keep every product stored under its lower-case id, so no
      two stored products name the same ObjectId. */
  lemma WritesKeepWellFormed(db: Db, body: ProductBody, newId: Id, productId: Id, patch: ProductBody)
    requires WellFormed(db) && newId !in db.products && IsCanonical(newId)
    ensures WellFormed(CreateProduct(db, body, newId).db)
    ensures WellFormed(UpdateProduct(db, productId, patch).db)
    ensures WellFormed(DeleteProduct(db, productId).db)
  {
    assert CreateProduct(db, body, newId).db.products.Keys <= db.products.Keys + {newId};
    assert UpdateProduct(db, productId, patch).db.products.Keys == db.products.Keys;
    assert DeleteProduct(db, productId).db.products.Keys <= db.products.Keys;
  }
}
