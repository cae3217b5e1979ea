/**
  The order document: line items, addresses, the status and payment
  enumerations, the schema's value constraints, and the pre-save hook that
  generates an order number. The hook's clock and random source are
  parameters.
 */
module OrderModel {
  import opened Wrappers
  import opened Text
  import opened ProductModel

  type UserId = string
  type OrderId = string

  // ---------------------------------------------------------- enumerations

  datatype OrderStatus = Pending | Processing | Shipped | Delivered | Cancelled

  function StatusName(s: OrderStatus): string {
    match s
    case Pending => "pending"
    case Processing => "processing"
    case Shipped => "shipped"
    case Delivered => "delivered"
    case Cancelled => "cancelled"
  }

  /** Membership in the status enumeration, read as a value. */
  function ParseStatus(name: string): (r: Option<OrderStatus>)
    ensures r.Some? ==> StatusName(r.value) == name
  {
    if name == "pending" then Some(Pending)
    else if name == "processing" then Some(Processing)
    else if name == "shipped" then Some(Shipped)
    else if name == "delivered" then Some(Delivered)
    else if name == "cancelled" then Some(Cancelled)
    else None
  }

  /** The five names are exactly the accepted ones. */
  lemma StatusRoundTrip(s: OrderStatus)
    ensures ParseStatus(StatusName(s)) == Some(s)
  {
  }

  datatype PaymentMethod = CreditCard | PayPal | ApplePay | GooglePay

  function PaymentName(m: PaymentMethod): string {
    match m
    case CreditCard => "credit-card"
    case PayPal => "paypal"
    case ApplePay => "apple-pay"
    case GooglePay => "google-pay"
  }

  function ParsePayment(name: string): (r: Option<PaymentMethod>)
    ensures r.Some? ==> PaymentName(r.value) == name
  {
    if name == "credit-card" then Some(CreditCard)
    else if name == "paypal" then Some(PayPal)
    else if name == "apple-pay" then Some(ApplePay)
    else if name == "google-pay" then Some(GooglePay)
    else None
  }

  lemma PaymentRoundTrip(m: PaymentMethod)
    ensures ParsePayment(PaymentName(m)) == Some(m)
  {
  }

  // ------------------------------------------------------------- addresses

  datatype AddressKind = ShippingKind | BillingKind

  const DefaultCountry: string := "United States"

  /** An address as a request supplies it. */
  datatype AddressInput = AddressInput(
    firstName: string,
    lastName: string,
    street: string,
    city: string,
    state: string,
    zipCode: string,
    country: Option<string>,
    phone: Option<string>)

  /** A stored address sub-document. */
  datatype Address = Address(
    kind: AddressKind,
    firstName: string,
    lastName: string,
    street: string,
    city: string,
    state: string,
    zipCode: string,
    country: string,
    phone: Option<string>,
    isDefault: bool)

  /** Casting an address into the sub-document: the given kind, trimmed fields,
      the default country when none is given, and `isDefault` false. */
  function MakeAddress(a: AddressInput, kind: AddressKind): (r: Address)
    ensures r.kind == kind && !r.isDefault
    ensures a.country.None? ==> r.country == DefaultCountry
    ensures a.country.Some? ==> r.country == Trim(a.country.value)
    ensures r.firstName == Trim(a.firstName) && r.lastName == Trim(a.lastName)
    ensures r.street == Trim(a.street) && r.city == Trim(a.city)
    ensures r.state == Trim(a.state) && r.zipCode == Trim(a.zipCode)
    ensures a.phone.None? ==> r.phone.None?
    ensures a.phone.Some? ==> r.phone == Some(Trim(a.phone.value))
  {
    Address(kind, Trim(a.firstName), Trim(a.lastName), Trim(a.street), Trim(a.city),
            Trim(a.state), Trim(a.zipCode),
            if a.country.Some? then Trim(a.country.value) else DefaultCountry,
            if a.phone.Some? then Some(Trim(a.phone.value)) else None,
            false)
  }

  /** The sub-document schema: every required string is non-empty once stored. */
  predicate AddressValid(a: Address) {
    && a.firstName != [] && a.lastName != [] && a.street != [] && a.city != []
    && a.state != [] && a.zipCode != [] && a.country != []
  }

  // ------------------------------------------------------------ line items

  /** A line item snapshots the product's price, name and image at order time. */
  datatype LineItem = LineItem(product: ProductId, quantity: int, price: real, name: string, image: string)

  predicate LineItemValid(li: LineItem) {
    li.quantity >= 1 && li.price >= 0.0 && li.name != [] && li.image != []
  }

  // ---------------------------------------------------------------- orders

  datatype Order = Order(
    user: UserId,
    orderNumber: Option<string>,
    items: seq<LineItem>,
    shippingAddress: Address,
    billingAddress: Option<Address>,
    paymentMethod: PaymentMethod,
    subtotal: real,
    tax: real,
    shipping: real,
    total: real,
    status: OrderStatus,
    trackingNumber: Option<string>,
    notes: Option<string>)

  /** JavaScript truthiness of an optional string: present and non-empty. */
  predicate Truthy(s: Option<string>) {
    s.Some? && s.value != []
  }

  /** The order schema's validators (status and payment method hold by their types). */
  predicate OrderValid(o: Order) {
    && Truthy(o.orderNumber)
    && (forall i :: 0 <= i < |o.items| ==> LineItemValid(o.items[i]))
    && AddressValid(o.shippingAddress)
    && (o.billingAddress.Some? ==> AddressValid(o.billingAddress.value))
    && o.subtotal >= 0.0 && o.tax >= 0.0 && o.shipping >= 0.0 && o.total >= 0.0
  }

  // ------------------------------------------------------- order numbers

  const OrderNumberPrefix: string := "WS"

  /** `Math.floor(random * 1000)` for a value of `Math.random()`. */
  function RandomSuffix(random: real): (k: nat)
    requires 0.0 <= random < 1.0
    ensures k < 1000
  {
    (random * 1000.0).Floor
  }

  /** The suffix is the whole part of `random * 1000`. */
  lemma RandomSuffixFloor(random: real)
    requires 0.0 <= random < 1.0
    ensures var k := RandomSuffix(random);
            k as real <= random * 1000.0 < k as real + 1.0
  { }

  /** "WS", the last six characters of the millisecond clock, then the random
      suffix zero-padded to three digits. */
  function GenerateOrderNumber(now: nat, random: real): (r: string)
    requires 0.0 <= random < 1.0
    ensures |r| >= 6 && r[..2] == OrderNumberPrefix && AllDigits(r[2..])
  {
    FormatOrderNumber(now, RandomSuffix(random))
  }

  function FormatOrderNumber(now: nat, k: nat): (r: string)
    ensures |r| >= 6 && r[..2] == OrderNumberPrefix && AllDigits(r[2..])
  {
    var stamp := SliceLast(DecimalString(now), 6);
    var suffix := PadStart(DecimalString(k), 3, '0');
    FormatDigits(now, k);
    OrderNumberPrefix + (stamp + suffix)
  }

  lemma FormatDigits(now: nat, k: nat)
    ensures var r := OrderNumberPrefix + (SliceLast(DecimalString(now), 6) + PadStart(DecimalString(k), 3, '0'));
            r[..2] == OrderNumberPrefix && AllDigits(r[2..])
  {
    var stamp := SliceLast(DecimalString(now), 6);
    var suffix := PadStart(DecimalString(k), 3, '0');
    ZeroPadValue(DecimalString(k), 3);
    SuffixOfDigits(DecimalString(now), |stamp|);
    DigitsConcat(stamp, suffix);
    var r := OrderNumberPrefix + (stamp + suffix);
    assert r[2..] == stamp + suffix;
    assert r[..2] == OrderNumberPrefix;
  }

  lemma SuffixOfDigits(s: string, k: nat)
    requires AllDigits(s) && k <= |s|
    ensures AllDigits(s[|s| - k..])
  {
  }

  lemma DigitsConcat(a: string, b: string)
    requires AllDigits(a) && AllDigits(b)
    ensures AllDigits(a + b)
  {
  }

  /** A value below 1000 renders in at most three digits. */
  lemma SuffixWidth(k: nat)
    requires k < 1000
    ensures |DecimalString(k)| <= 3
  {
    assert Pow10(3) == 1000;
    DecimalStringLength(k, 3);
  }

  /** The last three characters of a formatted number are the padded suffix. */
  lemma FormattedSuffix(now: nat, k: nat)
    requires k < 1000
    ensures var r := FormatOrderNumber(now, k);
            |r| >= 3 && r[|r| - 3..] == PadStart(DecimalString(k), 3, '0')
  {
    SuffixWidth(k);
    var suffix := PadStart(DecimalString(k), 3, '0');
    var front := OrderNumberPrefix + SliceLast(DecimalString(now), 6);
    var r := FormatOrderNumber(now, k);
    assert r == front + suffix;
    assert |suffix| == 3;
  }

  /** A suffix below 1000, padded to three digits, reads back as itself. */
  lemma PaddedSuffixValue(k: nat)
    requires k < 1000
    ensures AllDigits(PadStart(DecimalString(k), 3, '0'))
    ensures DecimalValue(PadStart(DecimalString(k), 3, '0')) == k
  {
    ZeroPadValue(DecimalString(k), 3);
    DecimalRoundTrip(k);
  }

  /** The last three characters of `r` are decimal digits denoting `k`. */
  predicate EndsWithSuffix(r: string, k: nat) {
    |r| >= 3 && AllDigits(r[|r| - 3..]) && DecimalValue(r[|r| - 3..]) == k
  }

  /** The last three characters of a formatted number denote its suffix. */
  lemma FormattedSuffixValue(now: nat, k: nat)
    requires k < 1000
    ensures EndsWithSuffix(FormatOrderNumber(now, k), k)
  {
    FormattedSuffix(now, k);
    PaddedSuffixValue(k);
  }

  /** The last three characters of an order number are the random suffix. */
  lemma OrderNumberSuffix(now: nat, random: real)
    requires 0.0 <= random < 1.0
    ensures EndsWithSuffix(GenerateOrderNumber(now, random), RandomSuffix(random))
  {
    FormattedSuffixValue(now, RandomSuffix(random));
  }

  /** Once the clock has six digits the number has eleven characters and its
      middle six digits are the clock modulo 10^6. */
  lemma OrderNumberStamp(now: nat, random: real)
    requires 0.0 <= random < 1.0 && now >= 100000
    ensures var r := GenerateOrderNumber(now, random);
            |r| == 11 && AllDigits(r[2..8]) && DecimalValue(r[2..8]) == now % 1000000
  {
    var k := RandomSuffix(random);
    var r := FormatOrderNumber(now, k);
    SuffixWidth(k);
    var ds := DecimalString(now);
    assert Pow10(5) == 100000;
    DecimalStringLength(now, 5);
    var stamp := SliceLast(ds, 6);
    var suffix := PadStart(DecimalString(k), 3, '0');
    assert r == OrderNumberPrefix + stamp + suffix;
    assert r[2..8] == stamp;
    assert stamp == ds[|ds| - 6..];
    DecimalSuffix(ds, 6);
    DecimalRoundTrip(now);
    assert Pow10(6) == 1000000;
  }

  /** The pre-save hook: a number is generated only when none is set. */
  function AssignOrderNumber(o: Order, now: nat, random: real): (o': Order)
    requires 0.0 <= random < 1.0
    ensures Truthy(o'.orderNumber)
    ensures Truthy(o.orderNumber) ==> o' == o
    ensures !Truthy(o.orderNumber) ==>
              o' == o.(orderNumber := Some(GenerateOrderNumber(now, random)))
  {
    if Truthy(o.orderNumber) then o
    else o.(orderNumber := Some(GenerateOrderNumber(now, random)))
  }

  /** Running the hook twice generates at most once. */
  lemma AssignOrderNumberIdempotent(o: Order, now: nat, random: real, now': nat, random': real)
    requires 0.0 <= random < 1.0 && 0.0 <= random' < 1.0
    ensures AssignOrderNumber(AssignOrderNumber(o, now, random), now', random')
            == AssignOrderNumber(o, now, random)
  {
  }

  // ------------------------------------------------------------- requests

  /** One requested line of a create-order request, after validation. */
  datatype ItemRequest = ItemRequest(productId: ProductId, quantity: int)

  /** A validated create-order request. */
  datatype OrderRequest = OrderRequest(
    items: seq<ItemRequest>,
    shipping: AddressInput,
    billing: Option<AddressInput>,
    payment: PaymentMethod)

  // --------------------------------------------------------- status updates

  /** A validated status-update request; tracking number and notes are already trimmed. */
  datatype StatusUpdate = StatusUpdate(status: OrderStatus, trackingNumber: Option<string>, notes: Option<string>)

  /** The field rules shared by both status-update handlers: the status is always
      overwritten, tracking number and notes only when the request carries a
      non-empty value. Nothing else in the order changes. */
  function ApplyStatusUpdate(o: Order, u: StatusUpdate): (o': Order)
    ensures o'.status == u.status
    ensures o'.trackingNumber == if Truthy(u.trackingNumber) then u.trackingNumber else o.trackingNumber
    ensures o'.notes == if Truthy(u.notes) then u.notes else o.notes
    ensures o'.(status := o.status, trackingNumber := o.trackingNumber, notes := o.notes) == o
  {
    o.(status := u.status,
       trackingNumber := if Truthy(u.trackingNumber) then u.trackingNumber else o.trackingNumber,
       notes := if Truthy(u.notes) then u.notes else o.notes)
  }

  /** Tracking number and notes are never cleared, and applying the same update twice
      changes nothing more. */
  lemma StatusUpdateMonotone(o: Order, u: StatusUpdate)
    ensures Truthy(o.trackingNumber) ==> Truthy(ApplyStatusUpdate(o, u).trackingNumber)
    ensures Truthy(o.notes) ==> Truthy(ApplyStatusUpdate(o, u).notes)
    ensures ApplyStatusUpdate(ApplyStatusUpdate(o, u), u) == ApplyStatusUpdate(o, u)
    ensures OrderValid(o) ==> OrderValid(ApplyStatusUpdate(o, u))
  {
  }
}
