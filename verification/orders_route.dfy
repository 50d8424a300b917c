/** The order routes of src/server/api/routes/orders.ts: placing an order
    (a sequential per-line loop that checks and decrements stock, with no
    transaction around it), the admin status update, and reading one order. */
module OrdersRoute {
  import opened Common
  import opened ServerModel
  import opened Middleware

  /** One element of the request's `products` array. */
  datatype LineRequest = LineRequest(productId: Id, quantity: int)

  /** The request's `products` field: missing, present but not an array, or an array. */
  datatype ProductsField = Absent | NotAnArray | Items(items: seq<LineRequest>)

  const ValidStatuses: seq<string> := ["Pending", "Shipped", "Delivered"]

  /** The status a new order document starts with. */
  const InitialStatus := "Pending"

  const ProductsRequired := "Products are required"
  const StatusRequired := "Valid status is required"
  const OrderNotFound := "Order not found"
  const NotOrderOwner := "Not authorized to access this order"

  function MissingProduct(id: Id): string {
    "Product with ID " + id + " not found"
  }

  function ShortStock(name: string): string {
    "Insufficient stock for " + name
  }

  /** The catalog after some stock updates: same products, same fields, only
      `stock` may differ. */
  predicate SameCatalog(before: map<Id, Product>, after: map<Id, Product>) {
    && before.Keys == after.Keys
    && forall id :: id in before ==> after[id] == before[id].(stock := after[id].stock)
  }

  /** The outcome of one loop iteration. */
  datatype LineOutcome =
    | Accepted(products: map<Id, Product>, line: OrderLine)
    | Rejected(status: int, message: string)

  /** One iteration of the order loop: re-read the product, check its current
      stock, copy it into an order line and save the decremented stock. The
      line carries the stored id (`product._id`), whatever the letter case of
      the requested one. */
  function PlaceLine(products: map<Id, Product>, item: LineRequest): (r: LineOutcome)
    ensures r.Accepted? <==>
      IsObjectId(item.productId) && Canonical(item.productId) in products &&
      products[Canonical(item.productId)].stock >= item.quantity
    ensures r.Accepted? ==>
      var key := Canonical(item.productId);
      var p := products[key];
      && r.products.Keys == products.Keys
      && r.products[key].stock == p.stock - item.quantity
      && SameCatalog(products, r.products)
      && (forall id :: id in products && id != key ==> r.products[id] == products[id])
      && r.line == OrderLine(key, p.name, p.price, item.quantity)
    ensures !IsObjectId(item.productId) ==> r == Rejected(400, CastErrorText)
    ensures IsObjectId(item.productId) && Canonical(item.productId) !in products ==>
      r == Rejected(404, MissingProduct(item.productId))
    ensures (IsObjectId(item.productId) && Canonical(item.productId) in products &&
             products[Canonical(item.productId)].stock < item.quantity) ==>
      r == Rejected(400, ShortStock(products[Canonical(item.productId)].name))
  {
    match Find(products, item.productId)
    case CastFailure => Rejected(400, CastErrorText)
    case Missing => Rejected(404, MissingProduct(item.productId))
    case Found(p) =>
      if p.stock < item.quantity then Rejected(400, ShortStock(p.name))
      else
        var key := Canonical(item.productId);
        var line := OrderLine(key, p.name, p.price, item.quantity);
        Accepted(products[key := p.(stock := p.stock - item.quantity)], line)
  }

  /** Where the order loop ends: every line placed, or stopped at line `failedAt`
      with the stock updates of the earlier lines already saved. */
  datatype LoopOutcome =
    | Completed(products: map<Id, Product>, lines: seq<OrderLine>, total: int)
    | Stopped(products: map<Id, Product>, failedAt: nat, status: int, message: string)

  /** The order loop over `items`, written as "the loop over all but the last
      line, then the last line". */
  function PlaceLines(products: map<Id, Product>, items: seq<LineRequest>): (r: LoopOutcome)
    ensures r.products.Keys == products.Keys
    ensures r.Completed? ==> |r.lines| == |items|
    ensures r.Stopped? ==> r.failedAt < |items| && (r.status == 400 || r.status == 404)
    decreases |items|
  {
    if |items| == 0 then Completed(products, [], 0)
    else Extend(PlaceLines(products, items[..|items| - 1]), items[|items| - 1], |items| - 1)
  }

  /** One more iteration, for the line at index `at`: nothing once stopped. */
  function Extend(before: LoopOutcome, item: LineRequest, at: nat): LoopOutcome {
    match before
    case Stopped(_, _, _, _) => before
    case Completed(ps, lines, total) =>
      match PlaceLine(ps, item)
      case Rejected(status, message) => Stopped(ps, at, status, message)
      case Accepted(ps', line) => Completed(ps', lines + [line], total + line.price * line.quantity)
  }

  /** The loop changes nothing but stock: same products, same other fields. */
  lemma {:induction false} PlaceLinesSameCatalog(products: map<Id, Product>, items: seq<LineRequest>)
    ensures SameCatalog(products, PlaceLines(products, items).products)
  {
    if |items| > 0 {
      var before := PlaceLines(products, items[..|items| - 1]);
      PlaceLinesSameCatalog(products, items[..|items| - 1]);
      if before.Completed? && PlaceLine(before.products, items[|items| - 1]).Accepted? {
        SameCatalogTransitive(products, before.products, PlaceLine(before.products, items[|items| - 1]).products);
      }
    }
  }

  lemma SameCatalogTransitive(a: map<Id, Product>, b: map<Id, Product>, c: map<Id, Product>)
    requires SameCatalog(a, b) && SameCatalog(b, c)
    ensures SameCatalog(a, c)
  {
  }

  /** The same loop as a `for` over the request, as the handler runs it. */
  method RunOrderLoop(products: map<Id, Product>, items: seq<LineRequest>) returns (r: LoopOutcome)
    ensures r == PlaceLines(products, items)
  {
    var current := products;
    var lines: seq<OrderLine> := [];
    var total := 0;
    var i := 0;
    while i < |items|
      invariant 0 <= i <= |items|
      invariant PlaceLines(products, items[..i]) == Completed(current, lines, total)
    {
      var next := Extend(Completed(current, lines, total), items[i], i);
      PlaceLinesStep(products, items, i);
      if next.Stopped? {
        StoppedIsFinal(products, items, i + 1);
        return next;
      }
      current, lines, total := next.products, next.lines, next.total;
      i := i + 1;
    }
    assert items[..i] == items;
    r := Completed(current, lines, total);
  }

  /** One more iteration after a prefix that completed. */
  lemma PlaceLinesStep(products: map<Id, Product>, items: seq<LineRequest>, i: nat)
    requires i < |items|
    ensures PlaceLines(products, items[..i + 1]) == Extend(PlaceLines(products, items[..i]), items[i], i)
  {
    assert items[..i + 1][..i] == items[..i];
    assert items[..i + 1][i] == items[i];
  }

  /** Once the loop has stopped it stays stopped: later lines are never read. */
  lemma {:induction false} StoppedIsFinal(products: map<Id, Product>, items: seq<LineRequest>, k: nat)
    requires k <= |items|
    requires PlaceLines(products, items[..k]).Stopped?
    ensures PlaceLines(products, items) == PlaceLines(products, items[..k])
    decreases |items| - k
  {
    if k < |items| {
      assert items[..k + 1][..k] == items[..k];
      StoppedIsFinal(products, items, k + 1);
    } else {
      assert items[..k] == items;
    }
  }

  /** The sum of the quantities requested for the product stored under `id`,
      over every spelling of that id. */
  function QuantityFor(items: seq<LineRequest>, id: Id): int
  {
    if |items| == 0 then 0
    else
      QuantityFor(items[..|items| - 1], id) +
      (if Canonical(items[|items| - 1].productId) == id then items[|items| - 1].quantity else 0)
  }

  /** The stored price of each requested product times its requested quantity,
      summed over the request. */
  function RequestTotal(products: map<Id, Product>, items: seq<LineRequest>): int
  {
    if |items| == 0 then 0
    else
      var item := items[|items| - 1];
      RequestTotal(products, items[..|items| - 1]) +
      (if Canonical(item.productId) in products
       then products[Canonical(item.productId)].price * item.quantity else 0)
  }

  /** `line` is `item` priced from `products`: the stored id, name and price,
      and the requested quantity. */
  predicate CopiesCatalog(products: map<Id, Product>, item: LineRequest, line: OrderLine) {
    var key := Canonical(item.productId);
    && key in products
    && line == OrderLine(key, products[key].name, products[key].price, item.quantity)
  }

  /** A completed run is a completed run of all but the last line, followed
      by the last line accepted. */
  lemma CompletedLast(products: map<Id, Product>, items: seq<LineRequest>)
    requires |items| > 0 && PlaceLines(products, items).Completed?
    ensures PlaceLines(products, items[..|items| - 1]).Completed?
    ensures PlaceLine(PlaceLines(products, items[..|items| - 1]).products, items[|items| - 1]).Accepted?
    ensures PlaceLines(products, items) == Extend(PlaceLines(products, items[..|items| - 1]), items[|items| - 1], |items| - 1)
  {
  }

  /** A line accepted against a catalog that differs only in stock copies
      the original catalog's name and price. */
  lemma AcceptedCopiesCatalog(products: map<Id, Product>, current: map<Id, Product>, item: LineRequest)
    requires SameCatalog(products, current) && PlaceLine(current, item).Accepted?
    ensures CopiesCatalog(products, item, PlaceLine(current, item).line)
  {
    var pid := Canonical(item.productId);
    assert current[pid] == products[pid].(stock := current[pid].stock);
  }

  /** On success, line `i` of the order is request line `i` priced from the
      catalog. */
  lemma {:induction false} LineCopiesCatalog(products: map<Id, Product>, items: seq<LineRequest>, i: nat)
    requires PlaceLines(products, items).Completed? && i < |items|
    ensures CopiesCatalog(products, items[i], PlaceLines(products, items).lines[i])
  {
    var n := |items| - 1;
    CompletedLast(products, items);
    var before := PlaceLines(products, items[..n]);
    if i == n {
      PlaceLinesSameCatalog(products, items[..n]);
      AcceptedCopiesCatalog(products, before.products, items[n]);
    } else {
      LineCopiesCatalog(products, items[..n], i);
      assert items[..n][i] == items[i];
    }
  }

  /** On success the order's lines are the requested lines in request order,
      each carrying the stored id, name and price and the requested quantity. */
  lemma CompletedLinesCopyCatalog(products: map<Id, Product>, items: seq<LineRequest>)
    requires PlaceLines(products, items).Completed?
    ensures var lines := PlaceLines(products, items).lines;
      forall i :: 0 <= i < |items| ==> CopiesCatalog(products, items[i], lines[i])
  {
    forall i | 0 <= i < |items|
      ensures CopiesCatalog(products, items[i], PlaceLines(products, items).lines[i])
    {
      LineCopiesCatalog(products, items, i);
    }
  }

  /** On success the total is computed from stored prices only: the request
      carries no price the server reads. */
  lemma {:induction false} CompletedTotal(products: map<Id, Product>, items: seq<LineRequest>)
    requires PlaceLines(products, items).Completed?
    ensures PlaceLines(products, items).total == RequestTotal(products, items)
  {
    if |items| > 0 {
      CompletedLast(products, items);
      PlaceLinesSameCatalog(products, items[..|items| - 1]);
      CompletedTotal(products, items[..|items| - 1]);
    }
  }

  /** On success each product's stock has dropped by exactly the quantities
      requested for it, over all lines that name it. */
  lemma {:induction false} CompletedStock(products: map<Id, Product>, items: seq<LineRequest>)
    requires PlaceLines(products, items).Completed?
    ensures var after := PlaceLines(products, items).products;
      forall id :: id in products ==> after[id].stock == products[id].stock - QuantityFor(items, id)
  {
    if |items| > 0 {
      CompletedLast(products, items);
      CompletedStock(products, items[..|items| - 1]);
    }
  }

  /** A failure at line `k` leaves exactly the stock updates of lines `0..k-1`
      in place, and line `k` is the first one the loop rejects. */
  lemma StoppedKeepsEarlierLines(products: map<Id, Product>, items: seq<LineRequest>)
    requires PlaceLines(products, items).Stopped?
    ensures var r := PlaceLines(products, items);
      && PlaceLines(products, items[..r.failedAt]).Completed?
      && PlaceLines(products, items[..r.failedAt]).products == r.products
      && PlaceLine(r.products, items[r.failedAt]) == Rejected(r.status, r.message)
  {
    assert items[..|items|] == items;
    StoppedPrefix(products, items, |items|);
  }

  /** The same for the run over the first `m` lines, by induction on `m`. */
  lemma {:induction false} StoppedPrefix(products: map<Id, Product>, items: seq<LineRequest>, m: nat)
    requires 0 < m <= |items| && PlaceLines(products, items[..m]).Stopped?
    ensures var r := PlaceLines(products, items[..m]);
      && r.failedAt < m
      && PlaceLines(products, items[..r.failedAt]).Completed?
      && PlaceLines(products, items[..r.failedAt]).products == r.products
      && PlaceLine(r.products, items[r.failedAt]) == Rejected(r.status, r.message)
  {
    var before := PlaceLines(products, items[..m - 1]);
    var r := PlaceLines(products, items[..m]);
    PlaceLinesStep(products, items, m - 1);
    if before.Stopped? {
      assert items[..0] == [];
      assert r == before;
      StoppedPrefix(products, items, m - 1);
    } else {
      ExtendStops(before, items[m - 1], m - 1);
      assert r.failedAt == m - 1 && r.products == before.products;
      assert items[..r.failedAt] == items[..m - 1];
    }
  }

  /** A completed run followed by a rejected line stops at that line, with
      the run's stock and the line's reply. */
  lemma ExtendStops(before: LoopOutcome, item: LineRequest, at: nat)
    requires before.Completed? && Extend(before, item, at).Stopped?
    ensures var r := Extend(before, item, at);
      && r.failedAt == at && r.products == before.products
      && PlaceLine(before.products, item) == Rejected(r.status, r.message)
  {
  }

  /** Each line re-reads its product, so a product named twice, in any two
      spellings of its id, is checked the second time against the stock the
      first line left. */
  lemma RepeatedProductSeesReducedStock(
    products: map<Id, Product>, a: Id, b: Id, first: int, second: int)
    requires IsObjectId(a) && Canonical(b) == Canonical(a) && Canonical(a) in products
    requires first <= products[Canonical(a)].stock < first + second
    ensures var r := PlaceLines(products, [LineRequest(a, first), LineRequest(b, second)]);
      && r.Stopped? && r.failedAt == 1 && r.status == 400
      && r.products[Canonical(a)].stock == products[Canonical(a)].stock - first
  {
    var pid := Canonical(a);
    var items := [LineRequest(a, first), LineRequest(b, second)];
    assert items[..1] == [LineRequest(a, first)];
    assert items[..1][..0] == [];
    var one := PlaceLine(products, items[0]);
    assert one.Accepted?;
    assert PlaceLines(products, items[..1]) == Completed(one.products, [one.line], first * products[pid].price);
    assert one.products[pid].stock == products[pid].stock - first;
    assert PlaceLine(one.products, items[1]).Rejected?;
  }

  /** No line checks that its quantity is positive: a negative quantity is
      accepted, raises the stock and lowers the total. */
  lemma NegativeQuantityRestocks(products: map<Id, Product>, pid: Id, n: int)
    requires IsObjectId(pid) && Canonical(pid) in products && products[Canonical(pid)].stock >= 0 && n > 0
    ensures var r := PlaceLines(products, [LineRequest(pid, -n)]);
      && r.Completed?
      && r.products[Canonical(pid)].stock == products[Canonical(pid)].stock + n
      && r.total == -(products[Canonical(pid)].price * n)
  {
    assert [LineRequest(pid, -n)][..0] == [];
  }

  /** POST `/`: validate the `products` field, run the order loop, and save
      the order only if every line was placed. */
  function CreateOrder(db: Db, userId: Id, body: ProductsField, shippingAddress: string, newId: Id): (r: Served)
    requires newId !in db.orders
    ensures r.db.users == db.users
    ensures body.Absent? || body.NotAnArray? || body == Items([]) ==>
      r == Served(db, Response(400, Message(ProductsRequired)))
    ensures r.response.status == 201 <==>
      body.Items? && |body.items| > 0 && PlaceLines(db.products, body.items).Completed?
    ensures r.response.status == 201 ==>
      var order := Order(userId, PlaceLines(db.products, body.items).lines,
                         RequestTotal(db.products, body.items), shippingAddress, InitialStatus);
      && r.db.orders == db.orders[newId := order]
      && r.db.products == PlaceLines(db.products, body.items).products
      && r.response.body == OrderJson(newId, order)
    ensures r.response.status != 201 ==> r.db.orders == db.orders
    ensures body.Items? && |body.items| > 0 && PlaceLines(db.products, body.items).Stopped? ==>
      var out := PlaceLines(db.products, body.items);
      r == Served(db.(products := out.products), Response(out.status, Message(out.message)))
    ensures SameCatalog(db.products, r.db.products)
  {
    match body
    case Absent => Served(db, Response(400, Message(ProductsRequired)))
    case NotAnArray => Served(db, Response(400, Message(ProductsRequired)))
    case Items(items) =>
      if |items| == 0 then Served(db, Response(400, Message(ProductsRequired)))
      else
        PlaceLinesSameCatalog(db.products, items);
        match PlaceLines(db.products, items)
        case Stopped(ps, _, status, message) =>
          Served(db.(products := ps), Response(status, Message(message)))
        case Completed(ps, lines, total) =>
          CompletedTotal(db.products, items);
          var order := Order(userId, lines, total, shippingAddress, InitialStatus);
          Served(db.(products := ps, orders := db.orders[newId := order]),
                 Response(201, OrderJson(newId, order)))
  }

  /** POST `/` behind `authenticate`. */
  function CreateOrderRoute(
    db: Db, authorization: Option<string>, verify: string -> Option<Id>,
    body: ProductsField, shippingAddress: string, newId: Id): (r: Served)
    requires newId !in db.orders
    ensures UserAccess(authorization, verify).Denied? ==>
      r == Served(db, UserAccess(authorization, verify).response)
    ensures UserAccess(authorization, verify).Granted? ==>
      r == CreateOrder(db, UserAccess(authorization, verify).userId, body, shippingAddress, newId)
  {
    match UserAccess(authorization, verify)
    case Denied(response) => Served(db, response)
    case Granted(userId) => CreateOrder(db, userId, body, shippingAddress, newId)
  }

  /** PUT `/:id/status`: the status must be one of the three known values
      (checked before the order is looked up); only that field changes. */
  function UpdateStatus(db: Db, orderId: Id, status: Option<string>): (r: Served)
    ensures r.db.products == db.products && r.db.users == db.users
    ensures status.None? || status.value !in ValidStatuses ==>
      r == Served(db, Response(400, Message(StatusRequired)))
    ensures status.Some? && status.value in ValidStatuses && IsObjectId(orderId) &&
            Canonical(orderId) !in db.orders ==>
      r == Served(db, Response(404, Message(OrderNotFound)))
    ensures r.response.status == 200 <==>
      status.Some? && status.value in ValidStatuses && IsObjectId(orderId) && Canonical(orderId) in db.orders
    ensures r.response.status == 200 ==>
      var key := Canonical(orderId);
      && r.db.orders == db.orders[key := db.orders[key].(status := status.value)]
      && r.response.body == OrderJson(key, r.db.orders[key])
    ensures r.response.status != 200 ==> r.db == db
  {
    if status.None? || status.value !in ValidStatuses then
      Served(db, Response(400, Message(StatusRequired)))
    else
      match Find(db.orders, orderId)
      case CastFailure => Served(db, Response(400, Message(CastErrorText)))
      case Missing => Served(db, Response(404, Message(OrderNotFound)))
      case Found(o) =>
        var key := Canonical(orderId);
        var updated := o.(status := status.value);
        Served(db.(orders := db.orders[key := updated]), Response(200, OrderJson(key, updated)))
  }

  /** PUT `/:id/status` behind `authenticate, isAdmin`. */
  function UpdateStatusRoute(
    db: Db, authorization: Option<string>, verify: string -> Option<Id>,
    orderId: Id, status: Option<string>): (r: Served)
    ensures AdminAccess(db.users, authorization, verify).Denied? ==>
      r == Served(db, AdminAccess(db.users, authorization, verify).response)
    ensures AdminAccess(db.users, authorization, verify).Granted? ==>
      r == UpdateStatus(db, orderId, status)
  {
    match AdminAccess(db.users, authorization, verify)
    case Denied(response) => Served(db, response)
    case Granted(_) => UpdateStatus(db, orderId, status)
  }

  /** Setting a status twice is setting it once. */
  lemma UpdateStatusIdempotent(db: Db, orderId: Id, status: Option<string>)
    ensures UpdateStatus(UpdateStatus(db, orderId, status).db, orderId, status).db
      == UpdateStatus(db, orderId, status).db
  {
  }

  /** GET `/:id`: absent orders are 404; otherwise only the owner, or a request
      flagged as admin, may read it. The owner check compares the stored
      owner id with the requester's id as text. */
  function GetOrder(db: Db, orderId: Id, requesterId: Id, requesterIsAdmin: bool): (r: Response)
    ensures IsObjectId(orderId) && Canonical(orderId) !in db.orders ==> r == Response(404, Message(OrderNotFound))
    ensures r.status == 200 <==>
      IsObjectId(orderId) && Canonical(orderId) in db.orders &&
      (db.orders[Canonical(orderId)].userId == requesterId || requesterIsAdmin)
    ensures r.status == 200 ==> r.body == OrderJson(Canonical(orderId), db.orders[Canonical(orderId)])
    ensures (IsObjectId(orderId) && Canonical(orderId) in db.orders &&
             db.orders[Canonical(orderId)].userId != requesterId && !requesterIsAdmin) ==>
      r == Response(403, Message(NotOrderOwner))
  {
    match Find(db.orders, orderId)
    case CastFailure => Response(500, Message(CastErrorText))
    case Missing => Response(404, Message(OrderNotFound))
    case Found(o) =>
      if o.userId != requesterId && !requesterIsAdmin then Response(403, Message(NotOrderOwner))
      else Response(200, OrderJson(Canonical(orderId), o))
  }

  /** GET `/:id` behind `authenticate`. The handler's admin escape reads
      `req.isAdmin`, which no middleware sets, so it is always false here. */
  function GetOrderRoute(db: Db, authorization: Option<string>, verify: string -> Option<Id>, orderId: Id): (r: Response)
    ensures UserAccess(authorization, verify).Denied? ==> r == UserAccess(authorization, verify).response
    ensures UserAccess(authorization, verify).Granted? ==>
      r == GetOrder(db, orderId, UserAccess(authorization, verify).userId, false)
  {
    match UserAccess(authorization, verify)
    case Denied(response) => response
    case Granted(userId) => GetOrder(db, orderId, userId, false)
  }

  /** Through the real guard chain only the owner can read an order: being a
      stored admin does not help. */
  lemma OnlyOwnerReadsOrder(db: Db, authorization: Option<string>, verify: string -> Option<Id>, orderId: Id)
    ensures GetOrderRoute(db, authorization, verify, orderId).status == 200 <==>
      && UserAccess(authorization, verify).Granted?
      && IsObjectId(orderId) && Canonical(orderId) in db.orders
      && db.orders[Canonical(orderId)].userId == UserAccess(authorization, verify).userId
  {
  }

  /** Placing an order and updating a status keep every document stored
      under its lower-case id. */
  lemma WritesKeepWellFormed(
    db: Db, userId: Id, body: ProductsField, shippingAddress: string, newId: Id,
    orderId: Id, status: Option<string>)
    requires WellFormed(db) && newId !in db.orders && IsCanonical(newId)
    ensures WellFormed(CreateOrder(db, userId, body, shippingAddress, newId).db)
    ensures WellFormed(UpdateStatus(db, orderId, status).db)
  {
    var created := CreateOrder(db, userId, body, shippingAddress, newId).db;
    assert created.products.Keys == db.products.Keys;
    assert created.orders.Keys <= db.orders.Keys + {newId};
    assert UpdateStatus(db, orderId, status).db.orders.Keys == db.orders.Keys;
  }
}
