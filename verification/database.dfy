/** The two collections the order workflow touches, as one in-memory value. */
module Database {
  import opened Wrappers
  import opened ProductModel
  import opened OrderModel

  datatype Store = Store(catalog: Catalog, orders: map<OrderId, Order>)

  predicate OrdersValid(orders: map<OrderId, Order>) {
    forall id :: id in orders ==> OrderValid(orders[id])
  }

  /** Every stored document satisfies its schema. */
  predicate StoreValid(s: Store) {
    CatalogValid(s.catalog) && OrdersValid(s.orders)
  }

  /** The unique index on order numbers already holds `n`. */
  predicate NumberTaken(orders: map<OrderId, Order>, n: string) {
    exists id :: id in orders && orders[id].orderNumber == Some(n)
  }
}
