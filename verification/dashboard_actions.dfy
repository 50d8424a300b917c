/** The two row buttons of src/pages/admin/Dashboard.tsx that call the server:
    the order status button and the user role button, with the local list
    updates they make afterwards. */
module DashboardActions {
  import opened Common
  import opened ServerModel
  import opened OrdersRoute
  import opened UsersRoute

  /** The status the button asks for next. */
  function NextStatus(status: string): (r: string)
    ensures r in ValidStatuses
    ensures r != status
    ensures status == "Pending" ==> r == "Shipped"
    ensures status == "Shipped" ==> r == "Delivered"
    ensures status != "Pending" && status != "Shipped" ==> r == "Pending"
  {
    if status == "Pending" then "Shipped"
    else if status == "Shipped" then "Delivered"
    else "Pending"
  }

  /** Three presses go round the cycle; an unknown status joins it at "Pending". */
  lemma ThreePressesReturn(status: string)
    ensures status in ValidStatuses ==> NextStatus(NextStatus(NextStatus(status))) == status
    ensures status !in ValidStatuses ==> NextStatus(status) == "Pending"
  {
  }

  /** The status button can never be refused by the server's whitelist: for a
      well-formed order id the answer is 200 or, for a vanished order, 404. */
  lemma StatusButtonPassesWhitelist(db: Db, orderId: Id, status: string)
    requires IsObjectId(orderId)
    ensures UpdateStatus(db, orderId, Some(NextStatus(status))).response.status == 200 <==>
      Canonical(orderId) in db.orders
    ensures UpdateStatus(db, orderId, Some(NextStatus(status))).response.status == 404 <==>
      Canonical(orderId) !in db.orders
  {
  }

  /** A row of the orders table. */
  datatype OrderRow = OrderRow(id: Id, userId: Id, totalAmount: real, status: string)

  /** After the reply body is read (`replyRead`), whatever its status, the
      matching rows get the new status; a network or parse failure leaves the
      list as it was. */
  function PressStatus(orders: seq<OrderRow>, order: OrderRow, replyRead: bool): (r: seq<OrderRow>)
    ensures |r| == |orders|
    ensures forall i :: 0 <= i < |orders| ==>
      r[i] == if replyRead && orders[i].id == order.id then orders[i].(status := NextStatus(order.status)) else orders[i]
  {
    if !replyRead then orders
    else
      seq(|orders|, i requires 0 <= i < |orders| =>
        if orders[i].id == order.id then orders[i].(status := NextStatus(order.status)) else orders[i])
  }

  /** The local list changes even when the server answered 404 and changed
      nothing, so the table can show a status the store does not hold. */
  lemma LocalUpdateIgnoresReplyStatus(db: Db, orders: seq<OrderRow>, i: int)
    requires 0 <= i < |orders|
    requires IsObjectId(orders[i].id) && Canonical(orders[i].id) !in db.orders
    ensures UpdateStatus(db, orders[i].id, Some(NextStatus(orders[i].status))) ==
      Served(db, Response(404, Message(OrderNotFound)))
    ensures PressStatus(orders, orders[i], true)[i].status != orders[i].status
  {
  }

  /** The role button calls `remove-admin` exactly for admins. */
  function RoleRoute(user: PublicUser): (path: string)
    ensures path == "remove-admin" <==> user.isAdmin
    ensures path == "make-admin" <==> !user.isAdmin
  {
    if user.isAdmin then "remove-admin" else "make-admin"
  }

  /** The admin flag that route writes. */
  function RequestedFlag(user: PublicUser): bool {
    RoleRoute(user) == "make-admin"
  }

  /** After an ok reply the matching rows flip their flag; otherwise nothing changes. */
  function ToggleRole(users: seq<PublicUser>, user: PublicUser, ok: bool): (r: seq<PublicUser>)
    ensures |r| == |users|
    ensures forall i :: 0 <= i < |users| ==>
      r[i] == if ok && users[i].id == user.id then users[i].(isAdmin := !users[i].isAdmin) else users[i]
  {
    if !ok then users
    else
      seq(|users|, i requires 0 <= i < |users| =>
        if users[i].id == user.id then users[i].(isAdmin := !users[i].isAdmin) else users[i])
  }

  /** When a row shows the stored flag, pressing its button leaves the row and
      the store agreeing again, now on the opposite flag. */
  lemma RoleToggleStaysInSync(db: Db, users: seq<PublicUser>, i: int)
    requires 0 <= i < |users|
    requires IsObjectId(users[i].id) && Canonical(users[i].id) in db.users
    requires users[i].isAdmin == db.users[Canonical(users[i].id)].isAdmin
    ensures var served := SetAdmin(db, users[i].id, RequestedFlag(users[i]));
      && served.response.status == 200
      && ToggleRole(users, users[i], true)[i].isAdmin == served.db.users[Canonical(users[i].id)].isAdmin
      && served.db.users[Canonical(users[i].id)].isAdmin == !users[i].isAdmin
  {
  }
}
