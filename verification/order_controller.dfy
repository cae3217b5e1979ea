/**
  The order workflow: placing an order (reserve stock item by item, snapshot
  line items, price the order, save it), cancelling a pending order
  (give the stock back), and the privileged status update. Each handler is a
  transition from a store to a store and a result.
 */
module OrderController {
  import opened Wrappers
  import opened Text
  import opened Responses
  import opened ProductModel
  import opened OrderModel
  import opened Totals
  import opened Database

  // ------------------------------------------------------ one reservation

  /** The check made before reserving: the product exists, is flagged in stock,
      and has at least the requested number of units. */
  predicate CanReserve(c: Catalog, it: ItemRequest) {
    it.productId in c && c[it.productId].inStock && c[it.productId].stockCount >= it.quantity
  }

  /** Lowers the stock by `q`; the flag drops only when the count reaches exactly zero. */
  function Decrement(p: Product, q: int): Product {
    var left := p.stockCount - q;
    p.(stockCount := left, inStock := if left == 0 then false else p.inStock)
  }

  /** The line item recorded for `it`, read from the product as `c` holds it. */
  function Snapshot(c: Catalog, it: ItemRequest): LineItem
    requires it.productId in c
  {
    var p := c[it.productId];
    LineItem(it.productId, it.quantity, p.price, p.name, p.image)
  }

  /** The effect of a successful reservation of `it` taking `c` to `c'`. */
  predicate ReservedOne(c: Catalog, it: ItemRequest, c': Catalog)
    requires it.productId in c
  {
    var id := it.productId;
    && c'.Keys == c.Keys
    && (forall other :: other in c && other != id ==> c'[other] == c[other])
    && c'[id].stockCount == c[id].stockCount - it.quantity
    && c'[id].stockCount >= 0
    && c'[id].inStock == (c'[id].stockCount > 0)
    && c'[id] == c[id].(stockCount := c'[id].stockCount, inStock := c'[id].inStock)
  }

  /** One iteration of the placement loop. */
  function ReserveItem(c: Catalog, it: ItemRequest): (r: Result<(Catalog, LineItem), Error>)
    ensures it.productId !in c ==> r == Failure(ProductNotFound(it.productId))
    ensures it.productId in c && !CanReserve(c, it) ==> r == Failure(InsufficientStock(c[it.productId].name))
    ensures r.Success? <==> CanReserve(c, it)
    ensures r.Success? ==> ReservedOne(c, it, r.value.0) && r.value.1 == Snapshot(c, it)
  {
    if it.productId !in c then Failure(ProductNotFound(it.productId))
    else
      var p := c[it.productId];
      if !p.inStock || p.stockCount < it.quantity then Failure(InsufficientStock(p.name))
      else Success((c[it.productId := Decrement(p, it.quantity)], Snapshot(c, it)))
  }

  // ------------------------------------------------------- the item loop

  /** The outcome of the item loop. A rejection carries the catalog as the loop
      left it: reservations made for earlier items stay applied. */
  datatype Reservation =
    | Reserved(catalog: Catalog, lines: seq<LineItem>)
    | Rejected(catalog: Catalog, at: nat, error: Error)

  /** The loop over the requested items, in request order, stopping at the first failure. */
  function ReserveAll(c: Catalog, items: seq<ItemRequest>): (r: Reservation)
    ensures r.catalog.Keys == c.Keys
    ensures r.Rejected? ==> r.at < |items|
    ensures r.Reserved? ==> |r.lines| == |items|
    decreases |items|
  {
    if items == [] then Reserved(c, [])
    else
      match ReserveItem(c, items[0])
      case Failure(e) => Rejected(c, 0, e)
      case Success((c1, li)) => After([li], ReserveAll(c1, items[1..]))
  }

  /** The outcome of a loop run that follows an earlier run which recorded `before`. */
  function After(before: seq<LineItem>, r: Reservation): Reservation {
    match r
    case Reserved(c, ls) => Reserved(c, before + ls)
    case Rejected(c, k, e) => Rejected(c, k + |before|, e)
  }

  lemma AfterAfter(a: seq<LineItem>, b: seq<LineItem>, r: Reservation)
    ensures After(a, After(b, r)) == After(a + b, r)
  {
    if r.Reserved? {
      assert a + (b + r.lines) == (a + b) + r.lines;
    }
  }

  /** Sum of the quantities requested for product `id`. */
  function Qty(items: seq<ItemRequest>, id: ProductId): int {
    if items == [] then 0
    else (if items[0].productId == id then items[0].quantity else 0) + Qty(items[1..], id)
  }

  predicate Mentions(items: seq<ItemRequest>, id: ProductId) {
    items != [] && (items[0].productId == id || Mentions(items[1..], id))
  }

  /** The (product, quantity) pairs a list of line items records. */
  function ItemsOf(lines: seq<LineItem>): (items: seq<ItemRequest>)
    ensures |items| == |lines|
  {
    if lines == [] then [] else [ItemRequest(lines[0].product, lines[0].quantity)] + ItemsOf(lines[1..])
  }

  /** Each line item of a successful loop snapshots the requested product and
      quantity with the price, name and image the product had before the loop
      (reservations change only stock fields, so that is also what it had when
      the item was reached). */
  lemma {:induction false} LinesSnapshotProducts(c: Catalog, items: seq<ItemRequest>)
    requires ReserveAll(c, items).Reserved?
    ensures var ls := ReserveAll(c, items).lines;
            forall i :: 0 <= i < |items| ==> items[i].productId in c && ls[i] == Snapshot(c, items[i])
  {
    var ls := ReserveAll(c, items).lines;
    if items != [] {
      var c1 := ReserveItem(c, items[0]).value.0;
      assert ReservedOne(c, items[0], c1);
      var rest := ReserveAll(c1, items[1..]);
      assert ls == [Snapshot(c, items[0])] + rest.lines;
      LinesSnapshotProducts(c1, items[1..]);
      forall i | 1 <= i < |items|
        ensures items[i].productId in c && ls[i] == Snapshot(c, items[i])
      {
        assert ls[i] == rest.lines[i - 1];
        assert items[i] == items[1..][i - 1];
        var id := items[i].productId;
        assert c1[id].price == c[id].price && c1[id].name == c[id].name && c1[id].image == c[id].image;
      }
    }
  }

  /** The line items of a successful loop record exactly the requested pairs, in order. */
  lemma {:induction false} LinesRecordRequest(c: Catalog, items: seq<ItemRequest>)
    requires ReserveAll(c, items).Reserved?
    ensures ItemsOf(ReserveAll(c, items).lines) == items
  {
    var ls := ReserveAll(c, items).lines;
    if items != [] {
      var c1 := ReserveItem(c, items[0]).value.0;
      var rest := ReserveAll(c1, items[1..]);
      assert ls == [Snapshot(c, items[0])] + rest.lines;
      LinesRecordRequest(c1, items[1..]);
      assert ls[1..] == rest.lines;
    }
  }

  /** Stock accounting of a successful loop: each product loses exactly the total
      quantity requested for it, a requested product was in stock beforehand and
      ends with a non-negative count and a flag that agrees with it, and nothing
      else about any product changes. */
  lemma {:induction false} ReservedStock(c: Catalog, items: seq<ItemRequest>)
    requires ReserveAll(c, items).Reserved?
    ensures var c' := ReserveAll(c, items).catalog;
            forall id :: id in c ==>
              && c'[id].stockCount == c[id].stockCount - Qty(items, id)
              && (!Mentions(items, id) ==> c'[id] == c[id])
              && (Mentions(items, id) ==>
                    && c[id].inStock
                    && c'[id].stockCount >= 0
                    && c'[id].inStock == (c'[id].stockCount > 0)
                    && c'[id] == c[id].(stockCount := c'[id].stockCount, inStock := c'[id].inStock))
  {
    var c' := ReserveAll(c, items).catalog;
    if items != [] {
      var it := items[0];
      var c1 := ReserveItem(c, it).value.0;
      assert ReservedOne(c, it, c1);
      ReservedStock(c1, items[1..]);
      assert c' == ReserveAll(c1, items[1..]).catalog;
      forall id | id in c
        ensures c'[id].stockCount == c[id].stockCount - Qty(items, id)
        ensures !Mentions(items, id) ==> c'[id] == c[id]
        ensures Mentions(items, id) ==>
                  && c[id].inStock
                  && c'[id].stockCount >= 0
                  && c'[id].inStock == (c'[id].stockCount > 0)
                  && c'[id] == c[id].(stockCount := c'[id].stockCount, inStock := c'[id].inStock)
      {
        assert id in c1;
        if id == it.productId {
          assert CanReserve(c, it);
        }
      }
    }
  }

  /** No rollback: when item `k` is rejected the catalog is exactly what reserving
      items 0..k-1 produced, and item `k` could not be reserved against it. */
  lemma {:induction false} RejectionKeepsEarlierReservations(c: Catalog, items: seq<ItemRequest>)
    requires ReserveAll(c, items).Rejected?
    ensures var r := ReserveAll(c, items);
            && ReserveAll(c, items[..r.at]).Reserved?
            && ReserveAll(c, items[..r.at]).catalog == r.catalog
            && !CanReserve(r.catalog, items[r.at])
            && r.error == if items[r.at].productId !in r.catalog then ProductNotFound(items[r.at].productId)
                          else InsufficientStock(r.catalog[items[r.at].productId].name)
  {
    var r := ReserveAll(c, items);
    match ReserveItem(c, items[0])
    case Failure(e) =>
      assert items[..0] == [];
    case Success((c1, li)) =>
      var rest := items[1..];
      RejectionKeepsEarlierReservations(c1, rest);
      var k := ReserveAll(c1, rest).at;
      assert r.at == k + 1;
      assert items[..k + 1][0] == items[0];
      assert items[..k + 1][1..] == rest[..k];
      assert items[r.at] == rest[k];
  }

  /** The stock a failed placement leaves behind: every product has lost what the
      items before the failing one asked of it. */
  lemma RejectedStock(c: Catalog, items: seq<ItemRequest>)
    requires ReserveAll(c, items).Rejected?
    ensures var r := ReserveAll(c, items);
            forall id :: id in c ==> r.catalog[id].stockCount == c[id].stockCount - Qty(items[..r.at], id)
  {
    var r := ReserveAll(c, items);
    RejectionKeepsEarlierReservations(c, items);
    ReservedStock(c, items[..r.at]);
  }

  /** Reservation keeps every product within its schema (the count never goes
      negative) and keeps `inStock == (stockCount > 0)`, whether or not the loop
      completes. */
  lemma {:induction false} ReserveAllPreservesInvariants(c: Catalog, items: seq<ItemRequest>)
    ensures CatalogValid(c) ==> CatalogValid(ReserveAll(c, items).catalog)
    ensures CatalogStockConsistent(c) ==> CatalogStockConsistent(ReserveAll(c, items).catalog)
  {
    if items != [] {
      match ReserveItem(c, items[0])
      case Failure(_) =>
      case Success((c1, _)) =>
        var id := items[0].productId;
        assert ReservedOne(c, items[0], c1);
        assert CatalogValid(c) ==> CatalogValid(c1) by {
          if CatalogValid(c) {
            assert ProductValid(c[id]);
            assert ProductValid(c1[id]);
          }
        }
        assert CatalogStockConsistent(c) ==> CatalogStockConsistent(c1) by {
          if CatalogStockConsistent(c) {
            assert StockConsistent(c1[id]);
          }
        }
        ReserveAllPreservesInvariants(c1, items[1..]);
    }
  }

  /** Running the loop on `a + b` is running it on `a`, then on `b` from where `a` left the catalog. */
  lemma {:induction false} ReserveAllAppend(c: Catalog, a: seq<ItemRequest>, b: seq<ItemRequest>)
    requires ReserveAll(c, a).Reserved?
    ensures ReserveAll(c, a + b) == After(ReserveAll(c, a).lines, ReserveAll(ReserveAll(c, a).catalog, b))
  {
    if a == [] {
      assert a + b == b;
      assert After([], ReserveAll(c, b)) == ReserveAll(c, b);
    } else {
      ReserveAllFirst(c, a);
      var c1 := ReserveItem(c, a[0]).value.0;
      var li := ReserveItem(c, a[0]).value.1;
      var ra1 := ReserveAll(c1, a[1..]);
      ReserveAllAppend(c1, a[1..], b);
      TailOfAppend(a, b);
      ReserveAllFirst(c, a + b);
      AfterAfter([li], ra1.lines, ReserveAll(ra1.catalog, b));
    }
  }

  lemma TailOfAppend<T>(a: seq<T>, b: seq<T>)
    requires a != []
    ensures (a + b)[0] == a[0] && (a + b)[1..] == a[1..] + b
  {
  }

  /** A run whose first item is reserved continues from the catalog that reservation left. */
  lemma ReserveAllFirst(c: Catalog, items: seq<ItemRequest>)
    requires items != [] && (ReserveAll(c, items).Reserved? || CanReserve(c, items[0]))
    ensures ReserveItem(c, items[0]).Success?
    ensures ReserveAll(c, items)
            == After([ReserveItem(c, items[0]).value.1], ReserveAll(ReserveItem(c, items[0]).value.0, items[1..]))
  {
  }

  // ------------------------------------------------------------- subtotal

  function LineTotal(li: LineItem): real {
    li.price * (li.quantity as real)
  }

  /** The running subtotal, accumulated in item order. */
  function Subtotal(lines: seq<LineItem>): real {
    if lines == [] then 0.0 else Subtotal(lines[..|lines| - 1]) + LineTotal(lines[|lines| - 1])
  }

  /** Adding a line adds its total. */
  lemma SubtotalSnoc(lines: seq<LineItem>, li: LineItem)
    ensures Subtotal(lines + [li]) == Subtotal(lines) + LineTotal(li)
  {
    var l' := lines + [li];
    assert l'[..|l'| - 1] == lines;
  }

  lemma {:induction false} SubtotalNonNegative(lines: seq<LineItem>)
    requires forall i :: 0 <= i < |lines| ==> lines[i].price >= 0.0 && lines[i].quantity >= 0
    ensures Subtotal(lines) >= 0.0
  {
    if lines != [] {
      SubtotalNonNegative(lines[..|lines| - 1]);
    }
  }

  /** The item loop as written: a running catalog, line list and subtotal,
      leaving at the first item that is missing or short of stock. */
  method ReserveItemsLoop(c: Catalog, items: seq<ItemRequest>)
    returns (cat: Catalog, lines: seq<LineItem>, subtotal: real, failure: Option<(nat, Error)>)
    ensures failure.None? ==> ReserveAll(c, items) == Reserved(cat, lines) && subtotal == Subtotal(lines)
    ensures failure.Some? ==> ReserveAll(c, items) == Rejected(cat, failure.value.0, failure.value.1)
  {
    cat := c;
    lines := [];
    subtotal := 0.0;
    failure := None;
    var i := 0;
    assert items[0..] == items;
    while i < |items|
      invariant 0 <= i <= |items| && |lines| == i
      invariant ReserveAll(c, items) == After(lines, ReserveAll(cat, items[i..]))
      invariant subtotal == Subtotal(lines)
    {
      var it := items[i];
      assert items[i..][0] == it && items[i..][1..] == items[i + 1..];
      if it.productId !in cat {
        assert ReserveAll(cat, items[i..]) == Rejected(cat, 0, ProductNotFound(it.productId));
        failure := Some((i, ProductNotFound(it.productId)));
        return;
      }
      var p := cat[it.productId];
      if !p.inStock || p.stockCount < it.quantity {
        assert ReserveAll(cat, items[i..]) == Rejected(cat, 0, InsufficientStock(p.name));
        failure := Some((i, InsufficientStock(p.name)));
        return;
      }
      var li := LineItem(it.productId, it.quantity, p.price, p.name, p.image);
      var cat' := cat[it.productId := Decrement(p, it.quantity)];
      assert ReserveItem(cat, it) == Success((cat', li));
      assert ReserveAll(cat, items[i..]) == After([li], ReserveAll(cat', items[i + 1..]));
      AfterAfter(lines, [li], ReserveAll(cat', items[i + 1..]));
      var itemTotal := LineTotal(li);
      SubtotalSnoc(lines, li);
      subtotal := subtotal + itemTotal;
      lines := lines + [li];
      cat := cat';
      i := i + 1;
    }
    assert items[i..] == [];
    assert lines + [] == lines;
  }

  // ------------------------------------------------------------ placement

  /** A request address whose required fields survive trimming. */
  predicate AddressInputComplete(a: AddressInput) {
    && NonBlank(a.firstName) && NonBlank(a.lastName) && NonBlank(a.street)
    && NonBlank(a.city) && NonBlank(a.state) && NonBlank(a.zipCode)
    && (a.country.Some? ==> NonBlank(a.country.value))
  }

  lemma MakeAddressValid(a: AddressInput, kind: AddressKind)
    requires AddressInputComplete(a)
    ensures AddressValid(MakeAddress(a, kind))
  {
    NonBlankIff(a.firstName);
    NonBlankIff(a.lastName);
    NonBlankIff(a.street);
    NonBlankIff(a.city);
    NonBlankIff(a.state);
    NonBlankIff(a.zipCode);
    if a.country.Some? {
      NonBlankIff(a.country.value);
    }
  }

  /** The new order document before its pre-save hook runs: the user's pending
      order of the given lines, priced, with the request's addresses cast into
      sub-documents and no order number, tracking number or notes yet. */
  function BuildOrder(user: UserId, lines: seq<LineItem>, req: OrderRequest): (o: Order)
    ensures o.user == user && o.items == lines && o.status == Pending
    ensures o.orderNumber.None? && o.trackingNumber.None? && o.notes.None?
    ensures o.shippingAddress == MakeAddress(req.shipping, ShippingKind)
    ensures o.billingAddress.Some? <==> req.billing.Some?
    ensures o.billingAddress.Some? ==> o.billingAddress.value == MakeAddress(req.billing.value, BillingKind)
    ensures o.paymentMethod == req.payment
    ensures o.subtotal == Subtotal(lines) && o.tax * 100.0 == o.subtotal * 8.0
    ensures o.shipping == (if o.subtotal > FreeShippingThreshold then 0.0 else OrderShippingFee)
    ensures o.total == o.subtotal + o.tax + o.shipping
  {
    var t := OrderTotals(Subtotal(lines));
    Order(user, None, lines,
          MakeAddress(req.shipping, ShippingKind),
          if req.billing.Some? then Some(MakeAddress(req.billing.value, BillingKind)) else None,
          req.payment, t.subtotal, t.tax, t.shipping, t.total, Pending, None, None)
  }

  /** The create-order handler with the order number assigned before the schema
      check, which is what the order-number hook evidently intends (the order a
      `pre('validate')` hook would give). `id` is the fresh document id the database
      assigns; `now` and `random` stand for `Date.now()` and `Math.random()`. */
  function CreateOrder(s: Store, user: UserId, req: OrderRequest, id: OrderId, now: nat, random: real)
    : (r: (Store, Result<Order, Error>))
    requires id !in s.orders
    requires 0.0 <= random < 1.0
    ensures r.0.catalog == ReserveAll(s.catalog, req.items).catalog
    ensures r.1.Failure? ==> r.0.orders == s.orders
    ensures ReserveAll(s.catalog, req.items).Rejected? ==> r.1 == Failure(ReserveAll(s.catalog, req.items).error)
    ensures r.1.Success? ==>
              && ReserveAll(s.catalog, req.items).Reserved?
              && r.0.orders == s.orders[id := r.1.value]
              && OrderValid(r.1.value)
              && r.1.value.user == user
              && r.1.value.status == Pending
              && r.1.value.items == ReserveAll(s.catalog, req.items).lines
              && r.1.value.subtotal == Subtotal(r.1.value.items)
              && r.1.value.total == r.1.value.subtotal + r.1.value.tax + r.1.value.shipping
              && r.1.value.tax * 100.0 == r.1.value.subtotal * 8.0
              && r.1.value.shipping == (if r.1.value.subtotal > FreeShippingThreshold then 0.0 else OrderShippingFee)
              && r.1.value.shippingAddress == MakeAddress(req.shipping, ShippingKind)
              && r.1.value.billingAddress
                 == (if req.billing.Some? then Some(MakeAddress(req.billing.value, BillingKind)) else None)
              && r.1.value.paymentMethod == req.payment
              && r.1.value.orderNumber == Some(GenerateOrderNumber(now, random))
              && r.1.value.trackingNumber.None? && r.1.value.notes.None?
  {
    match ReserveAll(s.catalog, req.items)
    case Rejected(c', _, e) => (s.(catalog := c'), Failure(e))
    case Reserved(c', lines) =>
      var o := AssignOrderNumber(BuildOrder(user, lines, req), now, random);
      if !OrderValid(o) || NumberTaken(s.orders, o.orderNumber.value) then (s.(catalog := c'), Failure(SaveRejected))
      else (Store(c', s.orders[id := o]), Success(o))
  }

  /** Saving a new order document in Mongoose's order: the schema check runs before
      the user's `pre('save')` hook. A document that passes the check already has an
      order number, on which the hook does nothing; any other document is refused
      and the hook never runs. */
  function SaveCheckedBeforeHook(s: Store, id: OrderId, o: Order): (r: (Store, Result<Order, Error>))
    requires id !in s.orders
    ensures !Truthy(o.orderNumber) ==> r == (s, Failure(SaveRejected))
    ensures r.1.Failure? ==> r.0 == s
    ensures r.1.Success? ==> r.1.value == o && OrderValid(o) && r.0 == s.(orders := s.orders[id := o])
  {
    if !OrderValid(o) || NumberTaken(s.orders, o.orderNumber.value) then (s, Failure(SaveRejected))
    else (s.(orders := s.orders[id := o]), Success(o))
  }

  /** The create-order handler as written: the item loop, then `order.save()` on a
      document whose order number the hook has not yet assigned. */
  function CreateOrderAsWritten(s: Store, user: UserId, req: OrderRequest, id: OrderId): (r: (Store, Result<Order, Error>))
    requires id !in s.orders
    ensures r.0.catalog == ReserveAll(s.catalog, req.items).catalog
  {
    match ReserveAll(s.catalog, req.items)
    case Rejected(c', _, e) => (s.(catalog := c'), Failure(e))
    case Reserved(c', lines) => SaveCheckedBeforeHook(s.(catalog := c'), id, BuildOrder(user, lines, req))
  }

  /** As written, no order is ever placed. When every item was reserved, the save is
      refused with 500 because the document has no order number yet, and the stock
      the loop took for every item stays taken. */
  lemma CreateOrderAsWrittenNeverPlaces(s: Store, user: UserId, req: OrderRequest, id: OrderId)
    requires id !in s.orders
    ensures var r := CreateOrderAsWritten(s, user, req, id);
            && r.1.Failure?
            && r.0.orders == s.orders
            && r.0.catalog == ReserveAll(s.catalog, req.items).catalog
    ensures ReserveAll(s.catalog, req.items).Reserved? ==>
              && CreateOrderAsWritten(s, user, req, id).1 == Failure(SaveRejected)
              && HttpStatus(CreateOrderAsWritten(s, user, req, id).1.error) == 500
              && forall pid :: pid in s.catalog ==>
                   CreateOrderAsWritten(s, user, req, id).0.catalog[pid].stockCount
                   == s.catalog[pid].stockCount - Qty(req.items, pid)
  {
    if ReserveAll(s.catalog, req.items).Reserved? {
      ReservedStock(s.catalog, req.items);
    }
  }

  /** Unknown product: no order is created and the error names the product. */
  lemma UnknownProductCreatesNoOrder(s: Store, user: UserId, req: OrderRequest, id: OrderId, now: nat, random: real)
    requires id !in s.orders && 0.0 <= random < 1.0
    requires req.items != [] && req.items[0].productId !in s.catalog
    ensures CreateOrder(s, user, req, id, now, random) == (s, Failure(ProductNotFound(req.items[0].productId)))
    ensures HttpStatus(CreateOrder(s, user, req, id, now, random).1.error) == 400
  {
  }

  /** A first item short of stock: no order is created, the error names the
      product, and the stock is as it was. */
  lemma ShortFirstItemCreatesNoOrder(s: Store, user: UserId, req: OrderRequest, id: OrderId, now: nat, random: real)
    requires id !in s.orders && 0.0 <= random < 1.0
    requires req.items != [] && req.items[0].productId in s.catalog
    requires s.catalog[req.items[0].productId].stockCount < req.items[0].quantity
    ensures CreateOrder(s, user, req, id, now, random)
            == (s, Failure(InsufficientStock(s.catalog[req.items[0].productId].name)))
    ensures HttpStatus(CreateOrder(s, user, req, id, now, random).1.error) == 400
  {
  }

  /** With a schema-valid catalog, positive quantities, complete addresses and a
      fresh order number, the order is saved exactly when every item could be reserved. */
  lemma CreateOrderSucceedsIffReserved(s: Store, user: UserId, req: OrderRequest, id: OrderId, now: nat, random: real)
    requires id !in s.orders && 0.0 <= random < 1.0
    requires CatalogValid(s.catalog)
    requires forall i :: 0 <= i < |req.items| ==> req.items[i].quantity >= 1
    requires AddressInputComplete(req.shipping)
    requires req.billing.Some? ==> AddressInputComplete(req.billing.value)
    requires !NumberTaken(s.orders, GenerateOrderNumber(now, random))
    ensures CreateOrder(s, user, req, id, now, random).1.Success? <==> ReserveAll(s.catalog, req.items).Reserved?
  {
    var ra := ReserveAll(s.catalog, req.items);
    if ra.Reserved? {
      var lines := ra.lines;
      LinesSnapshotProducts(s.catalog, req.items);
      forall i | 0 <= i < |lines|
        ensures LineItemValid(lines[i])
      {
        assert lines[i] == Snapshot(s.catalog, req.items[i]);
        assert ProductValid(s.catalog[req.items[i].productId]);
      }
      SubtotalNonNegative(lines);
      TotalsNonNegative(Subtotal(lines), OrderShippingFee);
      MakeAddressValid(req.shipping, ShippingKind);
      if req.billing.Some? {
        MakeAddressValid(req.billing.value, BillingKind);
      }
      var o := AssignOrderNumber(BuildOrder(user, lines, req), now, random);
      assert o.orderNumber == Some(GenerateOrderNumber(now, random));
      assert OrderValid(o);
    }
  }

  // ---------------------------------------------------------- cancellation

  /** Gives one line item's quantity back, when its product still exists. */
  function RestoreItem(c: Catalog, li: LineItem): (c': Catalog)
    ensures c'.Keys == c.Keys
  {
    if li.product in c then
      c[li.product := c[li.product].(stockCount := c[li.product].stockCount + li.quantity, inStock := true)]
    else c
  }

  /** The restore loop over an order's line items, in order. */
  function RestoreStock(c: Catalog, lines: seq<LineItem>): (c': Catalog)
    ensures c'.Keys == c.Keys
    decreases |lines|
  {
    if lines == [] then c else RestoreStock(RestoreItem(c, lines[0]), lines[1..])
  }

  /** Each existing product regains the total quantity the lines record for it and,
      if any line names it, is flagged in stock; no product is created or otherwise changed. */
  lemma {:induction false} RestoreStockEffect(c: Catalog, lines: seq<LineItem>)
    ensures var c' := RestoreStock(c, lines);
            && c'.Keys == c.Keys
            && forall id :: id in c ==>
                 && c'[id].stockCount == c[id].stockCount + Qty(ItemsOf(lines), id)
                 && c'[id].inStock == (Mentions(ItemsOf(lines), id) || c[id].inStock)
                 && c'[id] == c[id].(stockCount := c'[id].stockCount, inStock := c'[id].inStock)
  {
    if lines != [] {
      var c1 := RestoreItem(c, lines[0]);
      RestoreStockEffect(c1, lines[1..]);
      assert ItemsOf(lines)[1..] == ItemsOf(lines[1..]);
    }
  }

  /** The customer's cancel handler: only the owner's pending order can be cancelled. */
  function CancelOrder(s: Store, id: OrderId, user: UserId): (r: (Store, Result<Order, Error>))
    ensures (id !in s.orders || s.orders[id].user != user) ==> r == (s, Failure(OrderNotFound))
    ensures id in s.orders && s.orders[id].user == user && s.orders[id].status != Pending
            ==> r == (s, Failure(NotPending))
    ensures r.1.Success? <==> id in s.orders && s.orders[id].user == user && s.orders[id].status == Pending
    ensures r.1.Success? ==>
              && r.1.value == s.orders[id].(status := Cancelled)
              && r.0.orders == s.orders[id := r.1.value]
              && r.0.catalog == RestoreStock(s.catalog, s.orders[id].items)
  {
    if id !in s.orders || s.orders[id].user != user then (s, Failure(OrderNotFound))
    else if s.orders[id].status != Pending then (s, Failure(NotPending))
    else
      var o := s.orders[id].(status := Cancelled);
      (Store(RestoreStock(s.catalog, s.orders[id].items), s.orders[id := o]), Success(o))
  }

  /** Cancelling a pending order gives back exactly the ordered quantities: each
      product it names, if it still exists, gains its quantity and is flagged in
      stock; products that no longer exist are skipped. */
  lemma CancelRestoresStock(s: Store, id: OrderId, user: UserId)
    requires CancelOrder(s, id, user).1.Success?
    ensures var c' := CancelOrder(s, id, user).0.catalog;
            var ordered := ItemsOf(s.orders[id].items);
            && c'.Keys == s.catalog.Keys
            && forall pid :: pid in s.catalog ==>
                 && c'[pid].stockCount == s.catalog[pid].stockCount + Qty(ordered, pid)
                 && (Mentions(ordered, pid) ==> c'[pid].inStock)
                 && (!Mentions(ordered, pid) ==> c'[pid] == s.catalog[pid])
  {
    RestoreStockEffect(s.catalog, s.orders[id].items);
    var ordered := ItemsOf(s.orders[id].items);
    forall pid | pid in s.catalog && !Mentions(ordered, pid)
      ensures Qty(ordered, pid) == 0
    {
      UnmentionedQty(ordered, pid);
    }
  }

  lemma {:induction false} UnmentionedQty(items: seq<ItemRequest>, id: ProductId)
    requires !Mentions(items, id)
    ensures Qty(items, id) == 0
  {
    if items != [] {
      UnmentionedQty(items[1..], id);
    }
  }

  /** A quantity total over positive quantities is positive when the product is named. */
  lemma {:induction false} QtyPositive(items: seq<ItemRequest>, id: ProductId)
    requires forall i :: 0 <= i < |items| ==> items[i].quantity >= 1
    ensures Qty(items, id) >= 0
    ensures Mentions(items, id) ==> Qty(items, id) >= 1
  {
    if items != [] {
      QtyPositive(items[1..], id);
    }
  }

  lemma {:induction false} ItemsOfQuantities(lines: seq<LineItem>)
    requires forall i :: 0 <= i < |lines| ==> LineItemValid(lines[i])
    ensures forall i :: 0 <= i < |ItemsOf(lines)| ==> ItemsOf(lines)[i].quantity >= 1
  {
    if lines != [] {
      ItemsOfQuantities(lines[1..]);
      assert forall i :: 1 <= i < |lines| ==> ItemsOf(lines)[i] == ItemsOf(lines[1..])[i - 1];
    }
  }

  /** Cancelling a schema-valid order keeps the catalog schema-valid and keeps
      `inStock == (stockCount > 0)`. */
  lemma CancelPreservesInvariants(s: Store, id: OrderId, user: UserId)
    requires CancelOrder(s, id, user).1.Success?
    requires OrderValid(s.orders[id])
    ensures CatalogValid(s.catalog) ==> CatalogValid(CancelOrder(s, id, user).0.catalog)
    ensures CatalogValid(s.catalog) && CatalogStockConsistent(s.catalog)
            ==> CatalogStockConsistent(CancelOrder(s, id, user).0.catalog)
  {
    var lines := s.orders[id].items;
    RestoreStockEffect(s.catalog, lines);
    ItemsOfQuantities(lines);
    var c' := CancelOrder(s, id, user).0.catalog;
    var ordered := ItemsOf(lines);
    if CatalogValid(s.catalog) {
      forall pid | pid in c'
        ensures ProductValid(c'[pid])
        ensures CatalogStockConsistent(s.catalog) ==> StockConsistent(c'[pid])
      {
        var p := s.catalog[pid];
        assert ProductValid(p);
        QtyPositive(ordered, pid);
        var q := Qty(ordered, pid);
        assert c'[pid].stockCount == p.stockCount + q;
        if Mentions(ordered, pid) {
          assert c'[pid].inStock && q >= 1;
        } else {
          UnmentionedQty(ordered, pid);
          assert c'[pid].inStock == p.inStock && q == 0;
        }
        if CatalogStockConsistent(s.catalog) {
          assert StockConsistent(p);
        }
      }
    }
  }

  /** Giving back what a successful loop reserved restores the catalog exactly. */
  lemma RestoreUndoesReserve(c: Catalog, items: seq<ItemRequest>)
    requires ReserveAll(c, items).Reserved?
    ensures RestoreStock(ReserveAll(c, items).catalog, ReserveAll(c, items).lines) == c
  {
    var ra := ReserveAll(c, items);
    ReservedStock(c, items);
    LinesRecordRequest(c, items);
    RestoreStockEffect(ra.catalog, ra.lines);
    var c1 := ra.catalog;
    var c2 := RestoreStock(c1, ra.lines);
    assert ItemsOf(ra.lines) == items;
    forall pid | pid in c
      ensures c2[pid] == c[pid]
    {
      var p := c[pid];
      assert c2[pid].stockCount == c1[pid].stockCount + Qty(items, pid);
      assert c1[pid].stockCount == p.stockCount - Qty(items, pid);
      if Mentions(items, pid) {
        assert p.inStock && c2[pid].inStock;
        assert c1[pid] == p.(stockCount := c1[pid].stockCount, inStock := c1[pid].inStock);
      } else {
        UnmentionedQty(items, pid);
        assert c1[pid] == p;
      }
      assert c2[pid] == c1[pid].(stockCount := c2[pid].stockCount, inStock := c2[pid].inStock);
    }
    assert c2.Keys == c.Keys;
  }

  /** A successfully placed order, cancelled straight away, gives the catalog back
      exactly as it was before placement. */
  lemma CancelUndoesPlacement(s: Store, user: UserId, req: OrderRequest, id: OrderId, now: nat, random: real)
    requires id !in s.orders && 0.0 <= random < 1.0
    requires CreateOrder(s, user, req, id, now, random).1.Success?
    ensures var s1 := CreateOrder(s, user, req, id, now, random).0;
            && CancelOrder(s1, id, user).1.Success?
            && CancelOrder(s1, id, user).0.catalog == s.catalog
            && CancelOrder(s1, id, user).0.orders[id].status == Cancelled
  {
    RestoreUndoesReserve(s.catalog, req.items);
  }

  // ---------------------------------------------------------- status update

  /** The privileged status-update handler of the order routes. */
  function UpdateOrderStatus(s: Store, id: OrderId, u: StatusUpdate): (r: (Store, Result<Order, Error>))
    ensures id !in s.orders ==> r == (s, Failure(OrderNotFound))
    ensures id in s.orders ==>
              && r.1 == Success(ApplyStatusUpdate(s.orders[id], u))
              && r.0 == s.(orders := s.orders[id := r.1.value])
  {
    if id !in s.orders then (s, Failure(OrderNotFound))
    else
      var o := ApplyStatusUpdate(s.orders[id], u);
      (s.(orders := s.orders[id := o]), Success(o))
  }
}
