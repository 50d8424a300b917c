/** The documents of the shop's three collections (products, users, orders),
    the database as one value, and the HTTP responses the REST handlers send.
    Every handler of the model is a pure function from a database to a
    `Served`: the database afterwards and the response. */
module ServerModel {
  import opened Common
  import Strings

  /** A document id: the string form of a MongoDB ObjectId, as it appears in a
      URL path or a request body. */
  type Id = string

  predicate IsHexDigit(c: char) {
    '0' <= c <= '9' || 'a' <= c <= 'f' || 'A' <= c <= 'F'
  }

  /** Whether mongoose can cast `id` to an ObjectId: 24 hexadecimal digits,
      in either letter case. */
  predicate IsObjectId(id: Id) {
    |id| == 24 && forall i :: 0 <= i < |id| ==> IsHexDigit(id[i])
  }

  /** Whether `id` is an ObjectId spelled as the store keeps it: an ObjectId
      prints its hexadecimal digits in lower case. */
  predicate IsCanonical(id: Id) {
    IsObjectId(id) && forall i :: 0 <= i < |id| ==> !Strings.IsUpperAscii(id[i])
  }

  /** The key a lookup by `id` reaches: casting to an ObjectId reads the
      hexadecimal digits without regard to letter case. */
  function Canonical(id: Id): (k: Id)
    ensures |k| == |id|
    ensures IsObjectId(k) <==> IsObjectId(id)
    ensures IsObjectId(id) ==> IsCanonical(k)
    ensures IsCanonical(id) ==> k == id
  {
    var k := Strings.Lower(id);
    assert forall i :: 0 <= i < |id| ==> (IsHexDigit(k[i]) <==> IsHexDigit(id[i]));
    assert IsCanonical(id) ==> k == id by {
      if IsCanonical(id) {
        assert forall i :: 0 <= i < |id| ==> k[i] == id[i];
      }
    }
    k
  }

  /** A product document (src/server/models/Product.ts). Prices are whole cents. */
  datatype Product = Product(
    name: string,
    description: string,
    price: int,
    category: string,
    imageUrl: string,
    stock: int,
    featured: bool)

  /** One line of a saved order: a copy of the product as it was when ordered. */
  datatype OrderLine = OrderLine(productId: Id, name: string, price: int, quantity: int)

  /** An order document. */
  datatype Order = Order(
    userId: Id,
    products: seq<OrderLine>,
    totalAmount: int,
    shippingAddress: string,
    status: string)

  /** A user document (src/server/models/User.ts); `password` holds the stored hash. */
  datatype User = User(
    email: string,
    password: string,
    firstName: string,
    lastName: string,
    isAdmin: bool)

  /** A user as the API sends it: every field except the password. */
  datatype PublicUser = PublicUser(
    id: Id,
    email: string,
    firstName: string,
    lastName: string,
    isAdmin: bool)

  /** The view of a stored user that `select('-password')` produces. */
  function Public(id: Id, u: User): (p: PublicUser)
    ensures p.id == id && p.email == u.email && p.isAdmin == u.isAdmin
    ensures p.firstName == u.firstName && p.lastName == u.lastName
  {
    PublicUser(id, u.email, u.firstName, u.lastName, u.isAdmin)
  }

  /** The three collections, each keyed by document id. */
  datatype Db = Db(
    products: map<Id, Product>,
    orders: map<Id, Order>,
    users: map<Id, User>)

  /** Every key of every collection is an ObjectId in its lower-case
      spelling, as mongoose guarantees for the documents it creates; so no two
      keys name the same ObjectId. */
  predicate WellFormed(db: Db) {
    && (forall id :: id in db.products ==> IsCanonical(id))
    && (forall id :: id in db.orders ==> IsCanonical(id))
    && (forall id :: id in db.users ==> IsCanonical(id))
  }

  /** The JSON body of a response. */
  datatype Body =
    | Message(text: string)
    | ProductJson(productId: Id, product: Product)
    | ProductsJson(products: map<Id, Product>)
    | OrderJson(orderId: Id, order: Order)
    | UsersJson(users: map<Id, PublicUser>)

  datatype Response = Response(status: int, body: Body)

  /** What a handler leaves behind: the database afterwards and its response. */
  datatype Served = Served(db: Db, response: Response)

  /** The outcome of `Model.findById(id)`: mongoose throws a CastError for an
      id that is not an ObjectId, and resolves to null for an absent one. */
  datatype Lookup<T> = CastFailure | Missing | Found(value: T)

  function Find<T>(store: map<Id, T>, id: Id): (r: Lookup<T>)
    ensures r.CastFailure? <==> !IsObjectId(id)
    ensures r.Found? <==> IsObjectId(id) && Canonical(id) in store
    ensures r.Found? ==> r.value == store[Canonical(id)]
    ensures IsCanonical(id) && id in store ==> r == Found(store[id])
  {
    if !IsObjectId(id) then CastFailure
    else if Canonical(id) in store then Found(store[Canonical(id)])
    else Missing
  }

  /** Two spellings of one ObjectId find the same document, or both fail alike. */
  lemma FindIgnoresCase<T>(store: map<Id, T>, a: Id, b: Id)
    requires Canonical(a) == Canonical(b)
    ensures Find(store, a) == Find(store, b)
  {
  }

  /** One ObjectId in its stored spelling and typed in upper case. */
  const SampleId := "507f1f77bcf86cd799439011"
  const SampleIdUpper := "507F1F77BCF86CD799439011"

  lemma SampleIdUpperIsObjectId()
    ensures IsObjectId(SampleIdUpper)
  {
    forall i | 0 <= i < |SampleIdUpper|
      ensures IsHexDigit(SampleIdUpper[i])
    {
    }
  }

  lemma SampleIdUpperCanonical()
    ensures Canonical(SampleIdUpper) == SampleId
  {
    var k := Strings.Lower(SampleIdUpper);
    forall i | 0 <= i < |SampleIdUpper|
      ensures k[i] == SampleId[i]
    {
    }
    assert k == SampleId;
  }

  /** An id typed in upper case finds the document stored under its
      lower-case spelling. */
  lemma UpperCaseIdFindsStored<T>(v: T)
    ensures Find(map[SampleId := v], SampleIdUpper) == Found(v)
  {
    SampleIdUpperIsObjectId();
    SampleIdUpperCanonical();
  }

  /** The text of mongoose's CastError (only its start is modelled). */
  const CastErrorText := "Cast to ObjectId failed"

  /** Shared by `getUserById` and the user routes. */
  const UserNotFound := "User not found"
}
