/**
  Order pricing: 8% tax on the subtotal and a flat shipping fee waived
  strictly above a threshold. The order controller charges a flat fee of 25;
  the seed script's helper charges 15. Both are this one function with a
  different fee.
 */
module Totals {

  const TaxRate: real := 0.08
  const FreeShippingThreshold: real := 500.0
  /** Flat fee charged by order placement. */
  const OrderShippingFee: real := 25.0
  /** Flat fee charged by the seed script's helper. */
  const SeedShippingFee: real := 15.0

  datatype Totals = Totals(subtotal: real, tax: real, shipping: real, total: real)

  function ComputeTotals(subtotal: real, flatFee: real): (t: Totals)
    ensures t.subtotal == subtotal
    ensures t.total == t.subtotal + t.tax + t.shipping
    ensures t.shipping == 0.0 || t.shipping == flatFee
    ensures subtotal > FreeShippingThreshold ==> t.shipping == 0.0
    ensures subtotal <= FreeShippingThreshold ==> t.shipping == flatFee
  {
    var tax := subtotal * TaxRate;
    var shipping := if subtotal > FreeShippingThreshold then 0.0 else flatFee;
    Totals(subtotal, tax, shipping, subtotal + tax + shipping)
  }

  /** The totals of a placed order. */
  function OrderTotals(subtotal: real): Totals {
    ComputeTotals(subtotal, OrderShippingFee)
  }

  /** The seed script's `calculateOrderTotals(itemsTotal)`. */
  function SeedTotals(itemsTotal: real): Totals {
    ComputeTotals(itemsTotal, SeedShippingFee)
  }

  /** Tax is 8% of the subtotal, the total is 1.08 times the subtotal plus shipping,
      and shipping is free exactly when the subtotal exceeds the threshold. */
  lemma TotalsMeaning(subtotal: real, flatFee: real)
    requires flatFee > 0.0
    ensures ComputeTotals(subtotal, flatFee).tax * 100.0 == subtotal * 8.0
    ensures ComputeTotals(subtotal, flatFee).total
            == subtotal * 1.08 + ComputeTotals(subtotal, flatFee).shipping
    ensures ComputeTotals(subtotal, flatFee).shipping == 0.0 <==> subtotal > FreeShippingThreshold
  {
  }

  /** With a non-negative subtotal and fee every amount is non-negative, as the order schema requires. */
  lemma TotalsNonNegative(subtotal: real, flatFee: real)
    requires subtotal >= 0.0 && flatFee >= 0.0
    ensures var t := ComputeTotals(subtotal, flatFee);
            t.subtotal >= 0.0 && t.tax >= 0.0 && t.shipping >= 0.0 && t.total >= t.subtotal
  {
  }

  /** The seed helper passes its input through as the subtotal, taxes it at 8%,
      charges 15 up to and including 500, and adds the three up. */
  lemma SeedTotalsMeaning(itemsTotal: real)
    ensures SeedTotals(itemsTotal).subtotal == itemsTotal
    ensures SeedTotals(itemsTotal).tax * 100.0 == itemsTotal * 8.0
    ensures SeedTotals(itemsTotal).shipping == if itemsTotal > 500.0 then 0.0 else 15.0
    ensures SeedTotals(itemsTotal).total
            == SeedTotals(itemsTotal).subtotal + SeedTotals(itemsTotal).tax + SeedTotals(itemsTotal).shipping
  {
  }

  /** The seed helper: a subtotal of exactly 500 still pays the flat fee of 15. */
  lemma SeedThresholdIsStrict()
    ensures SeedTotals(500.0).shipping == 15.0
    ensures SeedTotals(500.0).total == 555.0
    ensures SeedTotals(500.01).shipping == 0.0
  {
  }

  /** Example: a single item priced 600 gives tax 48, free shipping and total 648. */
  lemma OrderTotalsExample()
    ensures OrderTotals(600.0) == Totals(600.0, 48.0, 0.0, 648.0)
    ensures OrderTotals(100.0) == Totals(100.0, 8.0, 25.0, 133.0)
  {
  }

  /** The waiver makes the total non-monotone: 500 costs more than 501. */
  lemma TotalDropsAtThreshold()
    ensures OrderTotals(500.0).total > OrderTotals(501.0).total
  {
  }
}
