/**
  The request validators of the middleware, as pure functions from a parsed
  request body to the list of fields whose rule failed, in the order the rule
  chains run, and the gate that answers a non-empty list with 400 before the
  handler is reached. The `trim()` sanitisers are applied by the conversion
  functions that hand a validated body to its handler. `isEmail` and
  `isMongoId` are library predicates and are taken as parameters.
 */
module Validation {
  import opened Wrappers
  import opened Text
  import opened Responses
  import opened OrderModel

  // ------------------------------------------------------------------ gate

  /** `handleValidationErrors`: any failed rule ends the request with 400 and
      the downstream handler is not called; an empty list lets it through. */
  function HandleValidationErrors(errs: seq<Field>): (o: Outcome<Error>)
    ensures o.Pass? <==> errs == []
    ensures o.Fail? ==> o.error == ValidationFailed(errs) && HttpStatus(o.error) == 400
  {
    if errs == [] then Pass else Fail(ValidationFailed(errs))
  }

  /** One rule of a chain: no error when it holds, the field's error otherwise. */
  function Check(ok: bool, f: Field): (errs: seq<Field>) {
    if ok then [] else [f]
  }

  /** Membership in five concatenated rule chains. */
  lemma InFive(a: seq<Field>, b: seq<Field>, c: seq<Field>, d: seq<Field>, e: seq<Field>)
    ensures forall f :: f in a + b + c + d + e <==> f in a || f in b || f in c || f in d || f in e
  {
  }

  // ---------------------------------------------------------- create order

  /** `isInt({ min })` applied to a JSON number: it is integral and at least `min`. */
  predicate IsIntAtLeast(x: real, min: int) {
    x.Floor as real == x && x.Floor >= min
  }

  /** One element of the request's `items` array. */
  datatype RawItem = RawItem(productId: string, quantity: real)

  /** A create-order body. `items` is None when absent or not an array; a
      missing address string is the empty string. */
  datatype RawOrder = RawOrder(
    items: Option<seq<RawItem>>,
    shipping: AddressInput,
    billing: Option<AddressInput>,
    paymentMethod: string)

  /** The `items.*.productId` chain: one error per element, in index order. */
  function ProductIdErrors(items: seq<RawItem>, isMongoId: string -> bool): (errs: seq<Field>)
    ensures forall f :: f in errs <==> f.ItemProductId? && f.index < |items| && !isMongoId(items[f.index].productId)
    ensures errs == [] <==> forall i :: 0 <= i < |items| ==> isMongoId(items[i].productId)
  {
    if items == [] then []
    else
      var n := |items| - 1;
      var front := items[..n];
      assert forall i :: 0 <= i < n ==> front[i] == items[i];
      ProductIdErrors(front, isMongoId) + (if isMongoId(items[n].productId) then [] else [ItemProductId(n)])
  }

  /** The `items.*.quantity` chain: one error per element, in index order. */
  function QuantityErrors(items: seq<RawItem>): (errs: seq<Field>)
    ensures forall f :: f in errs <==> f.ItemQuantity? && f.index < |items| && !IsIntAtLeast(items[f.index].quantity, 1)
    ensures errs == [] <==> forall i :: 0 <= i < |items| ==> IsIntAtLeast(items[i].quantity, 1)
  {
    if items == [] then []
    else
      var n := |items| - 1;
      var front := items[..n];
      assert forall i :: 0 <= i < n ==> front[i] == items[i];
      QuantityErrors(front) + (if IsIntAtLeast(items[n].quantity, 1) then [] else [ItemQuantity(n)])
  }

  /** A body every rule of `validateOrder` accepts. */
  predicate OrderBodyValid(raw: RawOrder, isMongoId: string -> bool) {
    && raw.items.Some? && |raw.items.value| >= 1
    && (forall i :: 0 <= i < |raw.items.value| ==>
          isMongoId(raw.items.value[i].productId) && IsIntAtLeast(raw.items.value[i].quantity, 1))
    && NonBlank(raw.shipping.firstName) && NonBlank(raw.shipping.lastName)
    && NonBlank(raw.shipping.street) && NonBlank(raw.shipping.city)
    && NonBlank(raw.shipping.state) && NonBlank(raw.shipping.zipCode)
    && ParsePayment(raw.paymentMethod).Some?
  }

  /** A `trim().isLength({ min: 1 })` chain on one field. */
  function Required(s: string, f: Field): (errs: seq<Field>)
    ensures f in errs <==> !NonBlank(s)
    ensures forall g :: g in errs ==> g == f
  {
    Check(NonBlank(s), f)
  }

  /** The six `shippingAddress.*` chains: each field must survive trimming. */
  function ShippingErrors(a: AddressInput): (errs: seq<Field>)
    ensures ShippingFirstName in errs <==> !NonBlank(a.firstName)
    ensures ShippingLastName in errs <==> !NonBlank(a.lastName)
    ensures ShippingStreet in errs <==> !NonBlank(a.street)
    ensures ShippingCity in errs <==> !NonBlank(a.city)
    ensures ShippingState in errs <==> !NonBlank(a.state)
    ensures ShippingZipCode in errs <==> !NonBlank(a.zipCode)
  {
    var first := Required(a.firstName, ShippingFirstName);
    var last := Required(a.lastName, ShippingLastName);
    var street := Required(a.street, ShippingStreet);
    var city := Required(a.city, ShippingCity);
    var state := Required(a.state, ShippingState);
    var zip := Required(a.zipCode, ShippingZipCode);
    InFive(first + last, street, city, state, zip);
    first + last + street + city + state + zip
  }

  /** The shipping chains report nothing but shipping fields. */
  lemma ShippingErrorsOnly(a: AddressInput)
    ensures forall f :: f in ShippingErrors(a) ==>
              (f.ShippingFirstName? || f.ShippingLastName? || f.ShippingStreet?
               || f.ShippingCity? || f.ShippingState? || f.ShippingZipCode?)
  {
    var first := Required(a.firstName, ShippingFirstName);
    var last := Required(a.lastName, ShippingLastName);
    var street := Required(a.street, ShippingStreet);
    var city := Required(a.city, ShippingCity);
    var state := Required(a.state, ShippingState);
    var zip := Required(a.zipCode, ShippingZipCode);
    assert ShippingErrors(a) == first + last + street + city + state + zip;
    InFive(first + last, street, city, state, zip);
  }

  /** `validateOrder`: the chains in order, items first and payment method last. */
  function ValidateOrder(raw: RawOrder, isMongoId: string -> bool): (errs: seq<Field>)
    ensures Items in errs <==> raw.items.GetOr([]) == []
    ensures PaymentMethodField in errs <==> ParsePayment(raw.paymentMethod).None?
  {
    var items := raw.items.GetOr([]);
    var ids := ProductIdErrors(items, isMongoId);
    var quantities := QuantityErrors(items);
    var shipping := ShippingErrors(raw.shipping);
    ShippingErrorsOnly(raw.shipping);
    assert Items !in ids && Items !in quantities && Items !in shipping;
    assert PaymentMethodField !in ids && PaymentMethodField !in quantities && PaymentMethodField !in shipping;
    Check(items != [], Items) + ids + quantities + shipping
    + Check(ParsePayment(raw.paymentMethod).Some?, PaymentMethodField)
  }

  /** Each item error names an element whose rule fails, and every such element is named. */
  lemma ValidateOrderItemErrors(raw: RawOrder, isMongoId: string -> bool, i: nat)
    ensures ItemProductId(i) in ValidateOrder(raw, isMongoId) <==>
              raw.items.Some? && i < |raw.items.value| && !isMongoId(raw.items.value[i].productId)
    ensures ItemQuantity(i) in ValidateOrder(raw, isMongoId) <==>
              raw.items.Some? && i < |raw.items.value| && !IsIntAtLeast(raw.items.value[i].quantity, 1)
  {
    var items := raw.items.GetOr([]);
    var ids := ProductIdErrors(items, isMongoId);
    var quantities := QuantityErrors(items);
    var shipping := ShippingErrors(raw.shipping);
    var head := Check(items != [], Items);
    var tail := Check(ParsePayment(raw.paymentMethod).Some?, PaymentMethodField);
    assert ValidateOrder(raw, isMongoId) == head + ids + quantities + shipping + tail;
    ShippingErrorsOnly(raw.shipping);
    assert ItemProductId(i) !in head + quantities + shipping + tail;
    assert ItemQuantity(i) !in head + ids + shipping + tail;
  }

  /** The validator lets a body through exactly when it satisfies every rule. */
  lemma ValidateOrderAccepts(raw: RawOrder, isMongoId: string -> bool)
    ensures ValidateOrder(raw, isMongoId) == [] <==> OrderBodyValid(raw, isMongoId)
  {
    if ValidateOrder(raw, isMongoId) == [] {
      AcceptedBodyValid(raw, isMongoId);
    }
    if OrderBodyValid(raw, isMongoId) {
      ValidBodyAccepted(raw, isMongoId);
    }
  }

  lemma AcceptedBodyValid(raw: RawOrder, isMongoId: string -> bool)
    requires ValidateOrder(raw, isMongoId) == []
    ensures OrderBodyValid(raw, isMongoId)
  {
    var items := raw.items.GetOr([]);
    var ship := ShippingErrors(raw.shipping);
    forall i | 0 <= i < |items|
      ensures isMongoId(items[i].productId) && IsIntAtLeast(items[i].quantity, 1)
    {
      ValidateOrderItemErrors(raw, isMongoId, i);
    }
    assert |ValidateOrder(raw, isMongoId)| >= |ship|;
    assert ship == [];
  }

  lemma ValidBodyAccepted(raw: RawOrder, isMongoId: string -> bool)
    requires OrderBodyValid(raw, isMongoId)
    ensures ValidateOrder(raw, isMongoId) == []
  {
    var items := raw.items.value;
    var ship := ShippingErrors(raw.shipping);
    ShippingErrorsOnly(raw.shipping);
    assert ship == [];
  }

  /** The body the order handler receives: the `trim()` sanitisers have run on
      the six shipping fields and each quantity is read as an integer. */
  function ToOrderRequest(raw: RawOrder): (req: OrderRequest)
    requires ParsePayment(raw.paymentMethod).Some?
    ensures |req.items| == |raw.items.GetOr([])|
    ensures forall i :: 0 <= i < |req.items| ==>
              && req.items[i].productId == raw.items.value[i].productId
              && (IsIntAtLeast(raw.items.value[i].quantity, 1) ==>
                    req.items[i].quantity >= 1 && req.items[i].quantity as real == raw.items.value[i].quantity)
    ensures PaymentName(req.payment) == raw.paymentMethod
    ensures req.shipping.firstName == Trim(raw.shipping.firstName) && req.shipping.lastName == Trim(raw.shipping.lastName)
    ensures req.shipping.street == Trim(raw.shipping.street) && req.shipping.city == Trim(raw.shipping.city)
    ensures req.shipping.state == Trim(raw.shipping.state) && req.shipping.zipCode == Trim(raw.shipping.zipCode)
    ensures req.shipping.country == raw.shipping.country && req.shipping.phone == raw.shipping.phone
    ensures req.billing == raw.billing
  {
    var items := raw.items.GetOr([]);
    var a := raw.shipping;
    OrderRequest(
      seq(|items|, i requires 0 <= i < |items| => ItemRequest(items[i].productId, items[i].quantity.Floor)),
      a.(firstName := Trim(a.firstName), lastName := Trim(a.lastName), street := Trim(a.street),
         city := Trim(a.city), state := Trim(a.state), zipCode := Trim(a.zipCode)),
      raw.billing,
      ParsePayment(raw.paymentMethod).value)
  }

  // --------------------------------------------------------- status update

  /** A status-update body; absent optional fields are None. */
  datatype RawStatusUpdate = RawStatusUpdate(status: string, trackingNumber: Option<string>, notes: Option<string>)

  /** `validateUpdateOrderStatus`: the status must name one of the five values;
      a tracking number, when present, must survive trimming; notes are only trimmed. */
  function ValidateStatusUpdate(raw: RawStatusUpdate): (errs: seq<Field>)
    ensures StatusField in errs <==> ParseStatus(raw.status).None?
    ensures TrackingNumberField in errs <==> raw.trackingNumber.Some? && !NonBlank(raw.trackingNumber.value)
    ensures forall f :: f in errs ==> f == StatusField || f == TrackingNumberField
  {
    (if ParseStatus(raw.status).Some? then [] else [StatusField])
    + (if raw.trackingNumber.Some? && !NonBlank(raw.trackingNumber.value) then [TrackingNumberField] else [])
  }

  function TrimOption(s: Option<string>): (r: Option<string>)
    ensures r.Some? <==> s.Some?
    ensures r.Some? ==> r.value == Trim(s.value)
  {
    if s.Some? then Some(Trim(s.value)) else None
  }

  /** The body the status handlers receive once the validator accepted it. */
  function ToStatusUpdate(raw: RawStatusUpdate): (u: StatusUpdate)
    requires ValidateStatusUpdate(raw) == []
    ensures StatusName(u.status) == raw.status
    ensures u.trackingNumber.Some? <==> raw.trackingNumber.Some?
    ensures raw.trackingNumber.Some? ==> u.trackingNumber.value == Trim(raw.trackingNumber.value) && u.trackingNumber.value != []
    ensures u.notes == TrimOption(raw.notes)
  {
    assert StatusField !in ValidateStatusUpdate(raw);
    assert TrackingNumberField !in ValidateStatusUpdate(raw);
    NonBlankIff(raw.trackingNumber.GetOr([]));
    StatusUpdate(ParseStatus(raw.status).value, TrimOption(raw.trackingNumber), TrimOption(raw.notes))
  }

  // ------------------------------------------------------------- register

  const MinPasswordLength: nat := 6

  /** A registration body; `phone` is None when absent or null. */
  datatype Registration = Registration(
    email: string,
    password: string,
    firstName: string,
    lastName: string,
    phone: Option<string>)

  /** The digits of a phone number once an optional leading '+' is dropped. */
  function PhoneDigits(p: string): (d: string)
    ensures d == p || (p != [] && p[0] == '+' && d == p[1..])
  {
    if p != [] && p[0] == '+' then p[1..] else p
  }

  /** The phone rule: an optional '+', then 10 to 15 decimal digits, the first not 0. */
  predicate PhoneMatches(p: string)
    ensures PhoneMatches(p) ==>
              && 10 <= |p| <= 16
              && (p[0] == '+' || '1' <= p[0] <= '9')
              && forall i :: 0 < i < |p| ==> IsDigit(p[i])
  {
    var d := PhoneDigits(p);
    10 <= |d| <= 15 && AllDigits(d) && d[0] != '0'
  }

  /** A state of the regular expression `^[\+]?[1-9][\d]{9,14}$` read left to right:
      before the optional sign, after the sign, or after the leading digit and `n` more. */
  datatype PhoneState = Start | Signed | Tail(n: nat)

  function PhoneStep(st: PhoneState, c: char): Option<PhoneState> {
    match st
    case Start => if c == '+' then Some(Signed) else if '1' <= c <= '9' then Some(Tail(0)) else None
    case Signed => if '1' <= c <= '9' then Some(Tail(0)) else None
    case Tail(n) => if IsDigit(c) && n < 14 then Some(Tail(n + 1)) else None
  }

  function PhoneRun(st: PhoneState, s: string): Option<PhoneState>
    decreases |s|
  {
    if s == [] then Some(st)
    else match PhoneStep(st, s[0])
      case None => None
      case Some(st') => PhoneRun(st', s[1..])
  }

  /** The regular expression accepts: the whole string is read and at least nine digits followed the leading one. */
  predicate PhoneRegexAccepts(p: string) {
    var r := PhoneRun(Start, p);
    r.Some? && r.value.Tail? && r.value.n >= 9
  }

  /** A string is all digits exactly when its head is a digit and its tail is all digits. */
  lemma AllDigitsCons(s: string)
    requires s != []
    ensures AllDigits(s) <==> IsDigit(s[0]) && AllDigits(s[1..])
  {
    if IsDigit(s[0]) && AllDigits(s[1..]) {
      forall i | 0 <= i < |s| ensures IsDigit(s[i]) {
        if i > 0 { assert s[i] == s[1..][i - 1]; }
      }
    }
  }

  /** In the digit loop the automaton only counts digits. */
  lemma {:induction false} PhoneTailRun(n: nat, s: string)
    requires n <= 14
    ensures PhoneRun(Tail(n), s) == (if AllDigits(s) && n + |s| <= 14 then Some(Tail(n + |s|)) else None)
    decreases |s|
  {
    if s != [] {
      AllDigitsCons(s);
      if IsDigit(s[0]) && n < 14 {
        PhoneTailRun(n + 1, s[1..]);
        assert PhoneRun(Tail(n), s) == PhoneRun(Tail(n + 1), s[1..]);
      } else {
        assert PhoneRun(Tail(n), s) == None;
      }
    }
  }

  /** The closed form of the phone rule is the regular expression. */
  lemma PhoneMatchesRegex(p: string)
    ensures PhoneMatches(p) <==> PhoneRegexAccepts(p)
  {
    var d := PhoneDigits(p);
    if d != [] {
      PhoneTailRun(0, d[1..]);
      AllDigitsCons(d);
    }
    if p != [] && p[0] == '+' {
      assert PhoneRun(Start, p) == PhoneRun(Signed, d);
    } else if p != [] {
      assert d == p;
    }
  }

  /** `validateRegister`. An empty phone is treated as absent (`checkFalsy`). */
  function ValidateRegister(raw: Registration, isEmail: string -> bool): (errs: seq<Field>)
    ensures Email in errs <==> !isEmail(raw.email)
    ensures Password in errs <==> |raw.password| < MinPasswordLength
    ensures FirstName in errs <==> !NonBlank(raw.firstName)
    ensures LastName in errs <==> !NonBlank(raw.lastName)
    ensures Phone in errs <==> raw.phone.Some? && raw.phone.value != [] && !PhoneMatches(raw.phone.value)
    ensures forall f :: f in errs ==> f.Email? || f.Password? || f.FirstName? || f.LastName? || f.Phone?
  {
    var email := Check(isEmail(raw.email), Email);
    var password := Check(|raw.password| >= MinPasswordLength, Password);
    var first := Check(NonBlank(raw.firstName), FirstName);
    var last := Check(NonBlank(raw.lastName), LastName);
    var phone := Check(raw.phone.None? || raw.phone.value == [] || PhoneMatches(raw.phone.value), Phone);
    InFive(email, password, first, last, phone);
    email + password + first + last + phone
  }

  /** An accepted registration has a password of at least six characters and,
      when it gives a phone number, one of 10 to 15 digits. */
  lemma RegisterAccepted(raw: Registration, isEmail: string -> bool)
    requires ValidateRegister(raw, isEmail) == []
    ensures |raw.password| >= 6
    ensures isEmail(raw.email) && NonBlank(raw.firstName) && NonBlank(raw.lastName)
    ensures raw.phone.Some? && raw.phone.value != [] ==>
              PhoneRegexAccepts(raw.phone.value) && 10 <= |PhoneDigits(raw.phone.value)| <= 15
  {
    if raw.phone.Some? && raw.phone.value != [] {
      PhoneMatchesRegex(raw.phone.value);
    }
  }

  // --------------------------------------------------------- create admin

  /** A create-admin body; `role` is None when absent. */
  datatype AdminRequest = AdminRequest(
    email: string,
    password: string,
    firstName: string,
    lastName: string,
    role: Option<string>)

  const AdminRoles: seq<string> := ["admin", "super-admin"]

  /** The create-admin rule chains: email, password length, names, and a role,
      when present, out of the two known roles. */
  function ValidateCreateAdmin(raw: AdminRequest, isEmail: string -> bool): (errs: seq<Field>)
    ensures Email in errs <==> !isEmail(raw.email)
    ensures Password in errs <==> |raw.password| < MinPasswordLength
    ensures FirstName in errs <==> !NonBlank(raw.firstName)
    ensures LastName in errs <==> !NonBlank(raw.lastName)
    ensures RoleField in errs <==> raw.role.Some? && raw.role.value !in AdminRoles
    ensures forall f :: f in errs ==> f.Email? || f.Password? || f.FirstName? || f.LastName? || f.RoleField?
  {
    var email := Check(isEmail(raw.email), Email);
    var password := Check(|raw.password| >= MinPasswordLength, Password);
    var first := Check(NonBlank(raw.firstName), FirstName);
    var last := Check(NonBlank(raw.lastName), LastName);
    var role := Check(raw.role.None? || raw.role.value in AdminRoles, RoleField);
    InFive(email, password, first, last, role);
    email + password + first + last + role
  }
}
