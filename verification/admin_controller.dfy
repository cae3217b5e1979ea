/**
  The admin handlers' pure parts: the status update (which shares its field
  rules with the order controller's) and admin account creation. The admin
  listings' page arithmetic is `Pagination.AdminPaginate`. Password hashing and
  the rest of the admin schema are not part of this model.
 */
module AdminController {
  import opened Wrappers
  import opened Responses
  import opened ProductModel
  import opened OrderModel
  import opened Database
  import opened OrderController
  import opened Validation

  /** The admin status update looks the order up, overwrites the status with no
      check of the current one, overwrites tracking number and notes only when
      truthy, and saves. It is the order controller's `UpdateOrderStatus`; this
      states what it does and does not touch. */
  lemma AdminStatusUpdate(s: Store, id: OrderId, u: StatusUpdate)
    ensures var r := UpdateOrderStatus(s, id, u);
            && r.0.catalog == s.catalog
            && (id !in s.orders ==> r == (s, Failure(OrderNotFound)) && HttpStatus(r.1.error) == 404)
            && (id in s.orders ==>
                  && r.1.Success?
                  && r.1.value.status == u.status
                  && r.1.value.trackingNumber == (if Truthy(u.trackingNumber) then u.trackingNumber else s.orders[id].trackingNumber)
                  && r.1.value.notes == (if Truthy(u.notes) then u.notes else s.orders[id].notes)
                  && r.0.orders.Keys == s.orders.Keys
                  && (forall k :: k in s.orders && k != id ==> r.0.orders[k] == s.orders[k]))
  {
  }

  /** Any status may follow any other, delivered back to pending included. */
  lemma AdminStatusHasNoTransitionCheck(s: Store, id: OrderId)
    requires id in s.orders && s.orders[id].status == Delivered
    ensures UpdateOrderStatus(s, id, StatusUpdate(Pending, None, None)).1.value.status == Pending
  {
  }

  /** Cancelling through the admin status update gives no stock back, while the
      customer's cancel does: for a valid pending order whose first product
      still exists the two leave that product's stock different. */
  lemma AdminCancelKeepsStock(s: Store, id: OrderId)
    requires StoreValid(s) && id in s.orders && s.orders[id].status == Pending
    requires s.orders[id].items != [] && s.orders[id].items[0].product in s.catalog
    ensures var pid := s.orders[id].items[0].product;
            && UpdateOrderStatus(s, id, StatusUpdate(Cancelled, None, None)).0.catalog[pid].stockCount
               == s.catalog[pid].stockCount
            && CancelOrder(s, id, s.orders[id].user).0.catalog[pid].stockCount
               > s.catalog[pid].stockCount
  {
    var o := s.orders[id];
    var pid := o.items[0].product;
    var ordered := ItemsOf(o.items);
    assert OrderValid(o);
    CancelRestoresStock(s, id, o.user);
    ItemsOfQuantities(o.items);
    QtyPositive(ordered, pid);
    assert ordered[0].productId == pid;
  }

  // ------------------------------------------------------- admin accounts

  /** A stored admin account. */
  datatype Admin = Admin(email: string, password: string, firstName: string, lastName: string, role: string)

  /** The admin collection, keyed by email. */
  type Admins = map<string, Admin>

  const DefaultRole: string := "admin"

  /** `role || 'admin'`: an absent or empty role becomes the default one. */
  function RoleOrDefault(role: Option<string>): (r: string)
    ensures r != []
    ensures role.Some? && role.value != [] ==> r == role.value
    ensures role.None? || role.value == [] ==> r == DefaultRole
  {
    if role.Some? && role.value != [] then role.value else DefaultRole
  }

  /** The create-admin handler: an email already on file is refused, otherwise the
      account is added with the requested or the default role. */
  function CreateAdmin(admins: Admins, req: AdminRequest): (r: (Admins, Result<Admin, Error>))
    ensures r.1.Success? <==> req.email !in admins
    ensures r.1.Failure? ==> r == (admins, Failure(AdminExists))
    ensures r.1.Success? ==> r.0 == admins[req.email := r.1.value] && r.1.value.email == req.email
  {
    if req.email in admins then (admins, Failure(AdminExists))
    else
      var a := Admin(req.email, req.password, req.firstName, req.lastName, RoleOrDefault(req.role));
      (admins[req.email := a], Success(a))
  }

  /** Account creation never replaces an account: the existing ones are kept, one
      is added at most, a refusal is a 400, and the same request a second time is refused. */
  lemma CreateAdminKeepsAccounts(admins: Admins, req: AdminRequest)
    ensures var r := CreateAdmin(admins, req);
            && (forall e :: e in admins ==> e in r.0 && r.0[e] == admins[e])
            && |r.0| == |admins| + (if r.1.Success? then 1 else 0)
            && (r.1.Failure? ==> HttpStatus(r.1.error) == 400)
            && CreateAdmin(r.0, req).1 == Failure(AdminExists)
    ensures req.role.None? && req.email !in admins ==> CreateAdmin(admins, req).1.value.role == DefaultRole
  {
  }
}
