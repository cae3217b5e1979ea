/**
  The product document: the fields the order workflow reads and writes, the
  schema's value constraints, and the defaults it fills in on creation.
 */
module ProductModel {
  import opened Wrappers
  import opened Text

  type ProductId = string

  /** A stored product. String fields hold the values after the schema's `trim` setter ran.
      The optional `features` list and the `specifications` map are not modelled. */
  datatype Product = Product(
    name: string,
    price: real,
    image: string,
    description: string,
    brand: string,
    category: string,
    movement: string,
    caseMaterial: string,
    caseSize: string,
    waterResistance: string,
    warranty: string,
    inStock: bool,
    stockCount: int,
    rating: real,
    reviews: int)

  /** The product collection, keyed by document id. */
  type Catalog = map<ProductId, Product>

  /** What a create request supplies; an absent optional field takes the schema default. */
  datatype ProductData = ProductData(
    name: string,
    price: real,
    image: string,
    description: string,
    brand: string,
    category: string,
    movement: string,
    caseMaterial: string,
    caseSize: string,
    waterResistance: string,
    warranty: string,
    inStock: Option<bool>,
    stockCount: Option<int>,
    rating: Option<real>,
    reviews: Option<int>)

  const DefaultInStock: bool := true
  const DefaultStockCount: int := 0
  const DefaultRating: real := 0.0
  const DefaultReviews: int := 0
  const MaxRating: real := 5.0

  /** The schema's validators: required strings present, and the numeric bounds. */
  predicate ProductValid(p: Product) {
    && p.name != [] && p.image != [] && p.brand != [] && p.category != []
    && p.description != [] && p.movement != [] && p.caseMaterial != []
    && p.caseSize != [] && p.waterResistance != [] && p.warranty != []
    && p.price >= 0.0
    && p.stockCount >= 0
    && 0.0 <= p.rating <= MaxRating
    && p.reviews >= 0
  }

  predicate CatalogValid(c: Catalog) {
    forall id :: id in c ==> ProductValid(c[id])
  }

  /** The availability flag agrees with the stock count. The schema does not enforce this. */
  predicate StockConsistent(p: Product) {
    p.inStock == (p.stockCount > 0)
  }

  predicate CatalogStockConsistent(c: Catalog) {
    forall id :: id in c ==> StockConsistent(c[id])
  }

  /** Casting request data into a document: trim setters and defaults. */
  function NewProduct(d: ProductData): (p: Product)
    ensures p.inStock == d.inStock.GetOr(DefaultInStock)
    ensures p.stockCount == d.stockCount.GetOr(DefaultStockCount)
    ensures p.rating == d.rating.GetOr(DefaultRating)
    ensures p.reviews == d.reviews.GetOr(DefaultReviews)
    ensures p.name == Trim(d.name) && p.price == d.price && p.image == d.image
    ensures p.brand == Trim(d.brand) && p.category == Trim(d.category)
    ensures p.description == Trim(d.description) && p.movement == Trim(d.movement)
    ensures p.caseMaterial == Trim(d.caseMaterial) && p.caseSize == Trim(d.caseSize)
    ensures p.waterResistance == Trim(d.waterResistance) && p.warranty == Trim(d.warranty)
  {
    Product(Trim(d.name), d.price, d.image, Trim(d.description), Trim(d.brand), Trim(d.category),
            Trim(d.movement), Trim(d.caseMaterial), Trim(d.caseSize),
            Trim(d.waterResistance), Trim(d.warranty),
            d.inStock.GetOr(DefaultInStock), d.stockCount.GetOr(DefaultStockCount),
            d.rating.GetOr(DefaultRating), d.reviews.GetOr(DefaultReviews))
  }

  /** Every required string of a create request survives trimming, and an image is given. */
  predicate RequiredTextPresent(d: ProductData) {
    && NonBlank(d.name) && d.image != [] && NonBlank(d.description)
    && NonBlank(d.brand) && NonBlank(d.category) && NonBlank(d.movement)
    && NonBlank(d.caseMaterial) && NonBlank(d.caseSize)
    && NonBlank(d.waterResistance) && NonBlank(d.warranty)
  }

  /** The defaults alone satisfy the numeric constraints but not stock consistency:
      a product created without stock fields is in stock with a count of zero. */
  lemma DefaultsBreakStockConsistency(d: ProductData)
    requires d.inStock.None? && d.stockCount.None?
    ensures NewProduct(d).stockCount == 0 && NewProduct(d).inStock
    ensures !StockConsistent(NewProduct(d))
    ensures d.rating.None? && d.reviews.None? && d.price >= 0.0 && RequiredTextPresent(d)
            ==> ProductValid(NewProduct(d))
  {
    NonBlankIff(d.name);
    NonBlankIff(d.description);
    NonBlankIff(d.brand);
    NonBlankIff(d.category);
    NonBlankIff(d.movement);
    NonBlankIff(d.caseMaterial);
    NonBlankIff(d.caseSize);
    NonBlankIff(d.waterResistance);
    NonBlankIff(d.warranty);
  }
}
