/**
  The product handlers' pure parts: creating a product (image source, schema
  defaults and validation), the `inStock` query filter, and the page size rule
  of the admin listing (the public listing uses `Pagination.Listing`). The image upload is a parameter: the storage
  client either returned a URL or failed.
 */
module ProductController {
  import opened Wrappers
  import opened Responses
  import opened ProductModel
  import opened Pagination

  /** What the upload middleware and the storage client produced for the request. */
  datatype Upload = NoFile | Uploaded(url: string) | UploadFailed

  /** Saving a new product document: schema defaults, then schema validation. */
  function SaveProduct(c: Catalog, id: ProductId, d: ProductData): (r: (Catalog, Result<Product, Error>))
    requires id !in c
    ensures r.1.Success? <==> ProductValid(NewProduct(d))
    ensures r.1.Success? ==> r.1.value == NewProduct(d) && r.0 == c[id := r.1.value]
    ensures r.1.Failure? ==> r == (c, Failure(SaveRejected))
  {
    var p := NewProduct(d);
    if ProductValid(p) then (c[id := p], Success(p)) else (c, Failure(SaveRejected))
  }

  /** The admin create-product handler. An uploaded file's URL replaces the body's
      image; without a file the body must carry an image. `id` is the fresh
      document id the database assigns. */
  function CreateProduct(c: Catalog, id: ProductId, d: ProductData, file: Upload): (r: (Catalog, Result<Product, Error>))
    requires id !in c
    ensures file.UploadFailed? ==> r == (c, Failure(ImageUploadFailed))
    ensures file.NoFile? && d.image == [] ==> r == (c, Failure(ImageRequired))
    ensures r.1.Failure? ==> r.0 == c
    ensures r.1.Success? ==>
              && r.0 == c[id := r.1.value]
              && ProductValid(r.1.value)
              && r.1.value.image == (if file.Uploaded? then file.url else d.image)
  {
    match file
    case UploadFailed => (c, Failure(ImageUploadFailed))
    case NoFile => if d.image == [] then (c, Failure(ImageRequired)) else SaveProduct(c, id, d)
    case Uploaded(url) => SaveProduct(c, id, d.(image := url))
  }

  /** The failures of product creation: a missing image is 400, a failed upload
      is 500, and neither stores anything. */
  lemma CreateProductFailures(c: Catalog, id: ProductId, d: ProductData, file: Upload)
    requires id !in c
    ensures CreateProduct(c, id, d, file).1 == Failure(ImageRequired) <==> file.NoFile? && d.image == []
    ensures CreateProduct(c, id, d, file).1 == Failure(ImageUploadFailed) <==> file.UploadFailed?
    ensures CreateProduct(c, id, d, file).1.Failure? ==> CreateProduct(c, id, d, file).0 == c
    ensures HttpStatus(ImageRequired) == 400 && HttpStatus(ImageUploadFailed) == 500
  {
    match file
    case UploadFailed =>
    case NoFile =>
      if d.image != [] {
        var r := SaveProduct(c, id, d);
        assert CreateProduct(c, id, d, file) == r;
        assert r.1.Failure? ==> r.1.error == SaveRejected;
      }
    case Uploaded(url) =>
      var r := SaveProduct(c, id, d.(image := url));
      assert CreateProduct(c, id, d, file) == r;
      assert r.1.Failure? ==> r.1.error == SaveRejected;
  }

  /** A stored product is schema-valid, carries the uploaded or the supplied
      image, and every other product is kept. */
  lemma CreateProductStores(c: Catalog, id: ProductId, d: ProductData, file: Upload)
    requires id !in c
    requires CreateProduct(c, id, d, file).1.Success?
    ensures var r := CreateProduct(c, id, d, file);
            && ProductValid(r.1.value)
            && r.1.value.image == (if file.Uploaded? then file.url else d.image)
            && r.0 == c[id := r.1.value]
  {
    match file
    case NoFile =>
      assert CreateProduct(c, id, d, file) == SaveProduct(c, id, d);
    case Uploaded(url) =>
      assert CreateProduct(c, id, d, file) == SaveProduct(c, id, d.(image := url));
  }

  /** Creating a product keeps a schema-valid catalog schema-valid. */
  lemma CreateProductKeepsCatalogValid(c: Catalog, id: ProductId, d: ProductData, file: Upload)
    requires id !in c && CatalogValid(c)
    ensures CatalogValid(CreateProduct(c, id, d, file).0)
  {
    var r := CreateProduct(c, id, d, file);
    if r.1.Success? {
      CreateProductStores(c, id, d, file);
      forall k | k in r.0
        ensures ProductValid(r.0[k])
      {
        if k != id {
          assert r.0[k] == c[k];
        }
      }
    }
  }

  /** The admin listing's `inStock` filter: absent means no filter; otherwise the
      filter is "in stock" exactly when the query string is `true`. */
  function InStockFilter(q: Option<string>): (f: Option<bool>)
    ensures f.None? <==> q.None?
    ensures f == Some(true) <==> q == Some("true")
  {
    if q.Some? then Some(q.value == "true") else None
  }

  /** Any other spelling asks for out-of-stock products. */
  lemma InStockFilterSpellings()
    ensures InStockFilter(Some("false")) == Some(false)
    ensures InStockFilter(Some("TRUE")) == Some(false)
    ensures InStockFilter(Some("1")) == Some(false)
  {
  }

  const AdminListingDefaultLimit: int := 20
  const AdminListingMaxLimit: int := 100

  /** The admin product listing: 20 per page by default, at most 100. */
  function AdminProductListing(page: Option<int>, limit: Option<int>, total: nat): (r: Page)
    ensures 1 <= r.itemsPerPage <= 100 && r.currentPage >= 1
    ensures limit.None? ==> r.itemsPerPage == 20
  {
    Paginate(page, limit, AdminListingDefaultLimit, AdminListingMaxLimit, total)
  }

  /** The public and admin product listings differ only in their page-size rule:
      a request for 80 per page gets 50 publicly and 80 from the admin listing. */
  lemma ListingCaps(total: nat)
    ensures Listing(Some(2), Some(80), total).itemsPerPage == 50
    ensures AdminProductListing(Some(2), Some(80), total).itemsPerPage == 80
    ensures Listing(Some(2), Some(80), total).skip == 50
  {
  }
}
