/**
  The request pipelines that put a validator in front of a handler: the rule
  chains run, their sanitisers rewrite the body, and the gate either answers 400
  or hands the rewritten body to the handler. Authentication middleware in
  front of these routes is not part of this model.
 */
module Routes {
  import opened Wrappers
  import opened Text
  import opened Responses
  import opened ProductModel
  import opened OrderModel
  import opened Database
  import opened OrderController
  import opened AdminController
  import opened Validation

  // ------------------------------------------------------ POST /orders

  /** `validateOrder`, its gate, then the create-order handler. */
  function PlaceOrderRoute(s: Store, user: UserId, raw: RawOrder, isMongoId: string -> bool,
                           id: OrderId, now: nat, random: real): (r: (Store, Result<Order, Error>))
    requires id !in s.orders && 0.0 <= random < 1.0
    ensures ValidateOrder(raw, isMongoId) != [] ==> r == (s, Failure(ValidationFailed(ValidateOrder(raw, isMongoId))))
    ensures r.1.Success? ==>
              && ValidateOrder(raw, isMongoId) == []
              && r.0.orders == s.orders[id := r.1.value]
              && r.1.value.user == user && r.1.value.status == Pending
              && r.1.value.paymentMethod == ToOrderRequest(raw).payment
              && PaymentName(r.1.value.paymentMethod) == raw.paymentMethod
  {
    var errs := ValidateOrder(raw, isMongoId);
    match HandleValidationErrors(errs)
    case Fail(e) => (s, Failure(e))
    case Pass =>
      var req := ToOrderRequest(raw);
      CreateOrder(s, user, req, id, now, random)
  }

  /** A body the validator rejects is answered with 400 and the failed fields,
      and neither the catalog nor the orders change: the handler never runs. */
  lemma InvalidOrderNeverReachesHandler(s: Store, user: UserId, raw: RawOrder, isMongoId: string -> bool,
                                        id: OrderId, now: nat, random: real)
    requires id !in s.orders && 0.0 <= random < 1.0
    requires ValidateOrder(raw, isMongoId) != []
    ensures PlaceOrderRoute(s, user, raw, isMongoId, id, now, random)
            == (s, Failure(ValidationFailed(ValidateOrder(raw, isMongoId))))
    ensures HttpStatus(PlaceOrderRoute(s, user, raw, isMongoId, id, now, random).1.error) == 400
  {
  }

  /** A validated body reaches the handler with at least one item, every quantity
      at least 1 and the six required shipping fields trimmed and non-empty. */
  lemma ValidatedOrderRequest(raw: RawOrder, isMongoId: string -> bool)
    requires ValidateOrder(raw, isMongoId) == []
    ensures var req := ToOrderRequest(raw);
            && |req.items| >= 1
            && (forall i :: 0 <= i < |req.items| ==> req.items[i].quantity >= 1)
            && NonBlank(req.shipping.firstName) && NonBlank(req.shipping.lastName)
            && NonBlank(req.shipping.street) && NonBlank(req.shipping.city)
            && NonBlank(req.shipping.state) && NonBlank(req.shipping.zipCode)
  {
    ValidateOrderAccepts(raw, isMongoId);
    var a := raw.shipping;
    TrimKeepsNonBlank(a.firstName);
    TrimKeepsNonBlank(a.lastName);
    TrimKeepsNonBlank(a.street);
    TrimKeepsNonBlank(a.city);
    TrimKeepsNonBlank(a.state);
    TrimKeepsNonBlank(a.zipCode);
  }

  lemma TrimKeepsNonBlank(s: string)
    requires NonBlank(s)
    ensures NonBlank(Trim(s))
  {
    NonBlankIff(s);
    TrimIdempotent(s);
    NonBlankIff(Trim(s));
  }

  /** With a schema-valid catalog, a fresh order number and an address the schema
      accepts, a validated order is placed exactly when every item can be reserved. */
  lemma ValidatedOrderPlacedIffReserved(s: Store, user: UserId, raw: RawOrder, isMongoId: string -> bool,
                                        id: OrderId, now: nat, random: real)
    requires id !in s.orders && 0.0 <= random < 1.0
    requires ValidateOrder(raw, isMongoId) == []
    requires CatalogValid(s.catalog)
    requires raw.shipping.country.Some? ==> NonBlank(raw.shipping.country.value)
    requires raw.billing.Some? ==> AddressInputComplete(raw.billing.value)
    requires !NumberTaken(s.orders, GenerateOrderNumber(now, random))
    ensures PlaceOrderRoute(s, user, raw, isMongoId, id, now, random).1.Success?
            <==> ReserveAll(s.catalog, ToOrderRequest(raw).items).Reserved?
  {
    ValidatedOrderRequest(raw, isMongoId);
    CreateOrderSucceedsIffReserved(s, user, ToOrderRequest(raw), id, now, random);
  }

  // ------------------------------------------ PATCH /orders/:id/status

  /** `validateUpdateOrderStatus`, its gate, then a status-update handler (both
      controllers' handlers apply the same rules). */
  function StatusUpdateRoute(s: Store, id: OrderId, raw: RawStatusUpdate): (r: (Store, Result<Order, Error>))
    ensures r.0.catalog == s.catalog
    ensures ValidateStatusUpdate(raw) != [] ==> r == (s, Failure(ValidationFailed(ValidateStatusUpdate(raw))))
    ensures r.1.Success? ==>
              && ValidateStatusUpdate(raw) == []
              && id in s.orders
              && r.0.orders == s.orders[id := r.1.value]
              && StatusName(r.1.value.status) == raw.status
  {
    var errs := ValidateStatusUpdate(raw);
    if errs != [] then (s, Failure(ValidationFailed(errs)))
    else UpdateOrderStatus(s, id, ToStatusUpdate(raw))
  }

  /** Through the route, an unknown status is a 400 even for an unknown order, a
      tracking number is stored trimmed, whitespace-only notes leave the stored
      notes alone, and the catalog never changes. */
  lemma StatusUpdateRouteEffect(s: Store, id: OrderId, raw: RawStatusUpdate)
    ensures var r := StatusUpdateRoute(s, id, raw);
            && r.0.catalog == s.catalog
            && (ParseStatus(raw.status).None? ==> r.0 == s && HttpStatus(r.1.error) == 400)
            && (r.1.Success? ==>
                  && id in s.orders
                  && StatusName(r.1.value.status) == raw.status
                  && (raw.trackingNumber.Some? ==> r.1.value.trackingNumber == Some(Trim(raw.trackingNumber.value)))
                  && (raw.notes.Some? && !NonBlank(raw.notes.value) ==> r.1.value.notes == s.orders[id].notes))
  {
    var errs := ValidateStatusUpdate(raw);
    if errs == [] {
      var u := ToStatusUpdate(raw);
      if raw.notes.Some? {
        NonBlankIff(raw.notes.value);
      }
      if id in s.orders {
        AdminStatusUpdate(s, id, u);
      }
    }
  }

  // --------------------------------------------- POST /admin/create-admin

  /** The create-admin rule chains' sanitisers: both names are trimmed. */
  function SanitizeAdminRequest(raw: AdminRequest): (req: AdminRequest)
    ensures req.email == raw.email && req.password == raw.password && req.role == raw.role
    ensures req.firstName == Trim(raw.firstName) && req.lastName == Trim(raw.lastName)
  {
    raw.(firstName := Trim(raw.firstName), lastName := Trim(raw.lastName))
  }

  /** The route as written: the create-admin rule chains run, but no gate reads
      their errors, so the handler runs on every body. Whatever the email rule is
      and whatever the chains report, an account is created exactly when the email
      is new, with the password as sent and the role the handler defaults. */
  function CreateAdminRouteAsWritten(admins: Admins, raw: AdminRequest, isEmail: string -> bool)
    : (r: (Admins, Result<Admin, Error>))
    ensures r.1.Success? <==> raw.email !in admins
    ensures r.1.Failure? ==> r == (admins, Failure(AdminExists))
    ensures r.1.Success? ==>
              && r.0 == admins[raw.email := r.1.value]
              && r.1.value.password == raw.password
              && r.1.value.role == RoleOrDefault(raw.role)
              && r.1.value.firstName == Trim(raw.firstName)
              && r.1.value.lastName == Trim(raw.lastName)
  {
    var _ := ValidateCreateAdmin(raw, isEmail);
    CreateAdmin(admins, SanitizeAdminRequest(raw))
  }

  /** The route with the gate every other validated route has. */
  function CreateAdminRoute(admins: Admins, raw: AdminRequest, isEmail: string -> bool)
    : (r: (Admins, Result<Admin, Error>))
    ensures ValidateCreateAdmin(raw, isEmail) != [] ==> r == (admins, Failure(ValidationFailed(ValidateCreateAdmin(raw, isEmail))))
    ensures r.1.Success? ==>
              && isEmail(raw.email) && raw.email !in admins
              && r.0 == admins[raw.email := r.1.value]
              && |r.1.value.password| >= MinPasswordLength
              && r.1.value.role in AdminRoles
              && NonBlank(raw.firstName) && NonBlank(raw.lastName)
  {
    var errs := ValidateCreateAdmin(raw, isEmail);
    if errs != [] then (admins, Failure(ValidationFailed(errs)))
    else CreateAdmin(admins, SanitizeAdminRequest(raw))
  }

  /** An email rule that accepts every address, so the example isolates the other rules. */
  predicate AnyAddress(e: string) { true }

  /** The example body: a three-character password and no role, so only the
      password rule fails and the role defaults to one the account schema allows. */
  const WeakAdmin: AdminRequest := AdminRequest("ops@example.com", "abc", "Ada", "Byron", None)

  /** As written, the example body is refused by the password rule and still
      creates an account with the three-character password and the default role;
      with the gate it is a 400 and no account is added. */
  lemma CreateAdminAcceptsInvalidBody()
    ensures ValidateCreateAdmin(WeakAdmin, AnyAddress) == [Password]
    ensures CreateAdminRouteAsWritten(map[], WeakAdmin, AnyAddress).1.Success?
    ensures CreateAdminRouteAsWritten(map[], WeakAdmin, AnyAddress).1.value.password == "abc"
    ensures CreateAdminRouteAsWritten(map[], WeakAdmin, AnyAddress).1.value.role == DefaultRole
    ensures CreateAdminRoute(map[], WeakAdmin, AnyAddress) == (map[], Failure(ValidationFailed([Password])))
  {
    assert NonBlank("Ada") by { assert !IsSpace('A'); }
    assert NonBlank("Byron") by { assert !IsSpace('B'); }
    assert ValidateCreateAdmin(WeakAdmin, AnyAddress) == [Password];
  }

  /** With the gate, a body any create-admin rule rejects is answered with 400 and
      no account is added; an accepted body is handled exactly as before, with a
      password of at least six characters and one of the two known roles. */
  lemma CreateAdminRouteGated(admins: Admins, raw: AdminRequest, isEmail: string -> bool)
    ensures var errs := ValidateCreateAdmin(raw, isEmail);
            var r := CreateAdminRoute(admins, raw, isEmail);
            && (errs != [] ==> r.0 == admins && r.1.Failure? && HttpStatus(r.1.error) == 400)
            && (errs == [] ==> r == CreateAdminRouteAsWritten(admins, raw, isEmail))
            && (r.1.Success? ==> |r.1.value.password| >= 6 && r.1.value.role in AdminRoles)
  {
  }
}
