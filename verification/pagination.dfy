/**
  The page arithmetic of the list endpoints. The public product and order
  listings clamp the requested page and page size; the admin user and order
  listings take `parseInt(...) || default` and do not clamp at all.
  Query values arrive as already-parsed integers: None stands for an absent
  parameter (and, in the admin listings, for one `parseInt` cannot read).
 */
module Pagination {
  import opened Wrappers

  /** `Math.ceil` on an exact real. */
  function Ceil(x: real): (c: int)
    ensures x <= c as real < x + 1.0
  {
    if x.Floor as real == x then x.Floor else x.Floor + 1
  }

  /** `Math.ceil(total / limit)` for a positive page size: the fewest pages of `limit` items that hold `total` items. */
  function PageCount(total: nat, limit: int): (pages: int)
    requires limit >= 1
  {
    Ceil(total as real / limit as real)
  }

  lemma RealScale(a: real, b: real, l: real)
    requires l > 0.0 && a <= b
    ensures a * l <= b * l
  {
  }

  lemma RealScaleStrict(a: real, b: real, l: real)
    requires l > 0.0 && a < b
    ensures a * l < b * l
  {
  }

  /** A real quotient scaled back by its divisor, with the product cast kept apart. */
  lemma QuotientTimes(total: nat, limit: int, c: int)
    requires limit >= 1
    ensures (total as real / limit as real) * limit as real == total as real
    ensures (c * limit) as real == c as real * limit as real
  {
  }

  /** `c` pages of `limit` items hold `total` items when `total / limit` does not exceed `c`. */
  lemma PagesHold(total: nat, limit: int, c: int)
    requires limit >= 1 && total as real / limit as real <= c as real
    ensures total <= c * limit
  {
    var x := total as real / limit as real;
    QuotientTimes(total, limit, c);
    RealScale(x, c as real, limit as real);
  }

  /** `c` pages of `limit` items fall short of `total` when `c` is below `total / limit`. */
  lemma PagesShort(total: nat, limit: int, c: int)
    requires limit >= 1 && c as real < total as real / limit as real
    ensures c * limit < total
  {
    var x := total as real / limit as real;
    QuotientTimes(total, limit, c);
    RealScaleStrict(c as real, x, limit as real);
  }

  /** The page count is the least number of pages that holds every item. */
  lemma PageCountBounds(total: nat, limit: int)
    requires limit >= 1
    ensures PageCount(total, limit) >= 0
    ensures total <= PageCount(total, limit) * limit
    ensures (PageCount(total, limit) - 1) * limit < total || (total == 0 && PageCount(total, limit) == 0)
  {
    var c := PageCount(total, limit);
    var x := total as real / limit as real;
    PagesHold(total, limit, c);
    if total > 0 {
      PagesShort(total, limit, c - 1);
    } else {
      assert x == 0.0;
    }
  }

  /** The pagination block of a clamped listing response, with the `skip` it queries with. */
  datatype Page = Page(
    currentPage: int,
    totalPages: int,
    totalItems: nat,
    itemsPerPage: int,
    skip: int,
    hasNextPage: bool,
    hasPrevPage: bool)

  /** `Math.max(1, page)` with `page` defaulting to 1. */
  function ClampPage(page: Option<int>): (p: int)
    ensures p >= 1
    ensures page.Some? && page.value >= 1 ==> p == page.value
    ensures (page.None? || page.value < 1) ==> p == 1
  {
    var n := page.GetOr(1);
    if n < 1 then 1 else n
  }

  /** `Math.max(1, Math.min(maxLimit, limit))` with `limit` defaulting to `defaultLimit`. */
  function ClampLimit(limit: Option<int>, defaultLimit: int, maxLimit: int): (l: int)
    requires 1 <= defaultLimit <= maxLimit
    ensures 1 <= l <= maxLimit
    ensures limit.None? ==> l == defaultLimit
    ensures limit.Some? && 1 <= limit.value <= maxLimit ==> l == limit.value
    ensures limit.Some? && limit.value > maxLimit ==> l == maxLimit
    ensures limit.Some? && limit.value < 1 ==> l == 1
  {
    var n := limit.GetOr(defaultLimit);
    var capped := if n < maxLimit then n else maxLimit;
    if capped < 1 then 1 else capped
  }

  /** A clamped listing: the page and page size are clamped, the query skips the
      earlier pages, and the flags say whether neighbouring pages exist. */
  function Paginate(page: Option<int>, limit: Option<int>, defaultLimit: int, maxLimit: int, total: nat): (r: Page)
    requires 1 <= defaultLimit <= maxLimit
    ensures r.currentPage == ClampPage(page) && r.itemsPerPage == ClampLimit(limit, defaultLimit, maxLimit)
    ensures r.totalItems == total
    ensures r.totalPages == PageCount(total, r.itemsPerPage)
  {
    var p := ClampPage(page);
    var l := ClampLimit(limit, defaultLimit, maxLimit);
    var pages := PageCount(total, l);
    Page(p, pages, total, l, (p - 1) * l, p < pages, p > 1)
  }

  lemma MulMonotone(a: int, b: int, l: int)
    requires l >= 1 && a <= b
    ensures a * l <= b * l
  {
  }

  /** What a clamped page promises: a non-negative skip over whole earlier pages,
      a next page exactly when items remain past this one, a previous page exactly
      when this one does not start at the first item. */
  lemma PaginateMeaning(page: Option<int>, limit: Option<int>, defaultLimit: int, maxLimit: int, total: nat)
    requires 1 <= defaultLimit <= maxLimit
    ensures var r := Paginate(page, limit, defaultLimit, maxLimit, total);
            && r.currentPage >= 1 && 1 <= r.itemsPerPage <= maxLimit
            && r.skip >= 0 && r.skip == (r.currentPage - 1) * r.itemsPerPage
            && (r.hasNextPage <==> r.skip + r.itemsPerPage < total)
            && (r.hasPrevPage <==> r.skip > 0)
  {
    var r := Paginate(page, limit, defaultLimit, maxLimit, total);
    var p := r.currentPage;
    var l := r.itemsPerPage;
    var c := r.totalPages;
    PageCountBounds(total, l);
    MulMonotone(0, p - 1, l);
    assert r.skip + l == p * l;
    if p < c {
      MulMonotone(p, c - 1, l);
    } else {
      MulMonotone(c, p, l);
    }
    if p > 1 {
      MulMonotone(1, p - 1, l);
    }
  }

  const ListingDefaultLimit: int := 10
  const ListingMaxLimit: int := 50

  /** The page rule shared by the public product listing and both order
      listings: 10 per page by default, at most 50. */
  function Listing(page: Option<int>, limit: Option<int>, total: nat): (r: Page)
    ensures 1 <= r.itemsPerPage <= 50 && r.currentPage >= 1
    ensures limit.None? ==> r.itemsPerPage == 10
  {
    Paginate(page, limit, ListingDefaultLimit, ListingMaxLimit, total)
  }

  // ------------------------------------------------------ admin listings

  /** The admin listings' page block, with the `skip` they query with. */
  datatype AdminPage = AdminPage(page: int, limit: int, skip: int, pages: int, total: nat)

  const AdminDefaultPage: int := 1
  const AdminDefaultLimit: int := 10

  /** `parseInt(value) || fallback`: an unreadable value or 0 gives the fallback. */
  function OrDefault(value: Option<int>, fallback: int): (n: int)
    ensures value.Some? && value.value != 0 ==> n == value.value
    ensures (value.None? || value.value == 0) ==> n == fallback
  {
    if value.Some? && value.value != 0 then value.value else fallback
  }

  /** The admin user and order listings: defaults, but no clamping. */
  function AdminPaginate(page: Option<int>, limit: Option<int>, total: nat): (r: AdminPage)
    ensures r.page != 0 && r.limit != 0
    ensures r.page == OrDefault(page, AdminDefaultPage) && r.limit == OrDefault(limit, AdminDefaultLimit)
    ensures r.skip == (r.page - 1) * r.limit
    ensures r.total == total
    ensures r.pages == Ceil(total as real / r.limit as real)
    ensures r.limit >= 1 ==> r.pages == PageCount(total, r.limit)
  {
    var p := OrDefault(page, AdminDefaultPage);
    var l := OrDefault(limit, AdminDefaultLimit);
    AdminPage(p, l, (p - 1) * l, Ceil(total as real / l as real), total)
  }

  /** For in-range requests the admin listing computes what the clamped one does. */
  lemma AdminAgreesWhenInRange(page: int, limit: int, total: nat)
    requires page >= 1 && 1 <= limit <= 50
    ensures var a := AdminPaginate(Some(page), Some(limit), total);
            var r := Listing(Some(page), Some(limit), total);
            a.page == r.currentPage && a.limit == r.itemsPerPage && a.skip == r.skip && a.pages == r.totalPages
  {
  }

  /** Nothing stops a negative page or page size: page -1 computes a skip of -20,
      which the database query then refuses, and a page size of -5 over 12 items
      computes -2 pages. */
  lemma AdminPaginationUnclamped()
    ensures AdminPaginate(Some(-1), None, 100).skip == -20
    ensures AdminPaginate(Some(0), Some(0), 7) == AdminPage(1, 10, 0, 1, 7)
    ensures AdminPaginate(None, Some(-5), 12).pages == -2
  {
    assert (12 as real / -5 as real).Floor == -3;
  }
}
