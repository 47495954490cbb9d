/**
 * The product catalogue: the Product schema's constraints and the product
 * controller's create, update and list handlers.
 *
 * Prices are integer currency units. Category is kept as the string the
 * request carries, because the update handler can store a value outside the
 * schema's enumeration (see `UpdateProductAsWritten`).
 */
module Catalog {
  import opened Common
  import opened Sorting
  import opened Paging

  const Categories: seq<string> := ["case", "earphone", "charger", "glass"]
  const DefaultStock: int := 100
  const UploadPrefix: string := "/uploads/"
  const DefaultPage: nat := 1
  const DefaultLimit: nat := 12
  const MaxLimit: nat := 100

  /** A catalogue record; `createdAt` is the store's creation timestamp. */
  datatype Product = Product(
    id: string,
    name: string,
    description: Option<string>,
    price: int,
    category: string,
    images: seq<string>,
    stock: int,
    createdAt: int)

  /** The schema's constraints: a name, a non-negative price, a known category. */
  predicate ValidProduct(p: Product)
  {
    p.name != "" && p.price >= 0 && p.category in Categories
  }

  predicate AllValid(catalog: seq<Product>)
  {
    forall i :: 0 <= i < |catalog| ==> ValidProduct(catalog[i])
  }

  /** The product fields a create or update request body may carry. */
  datatype ProductFields = ProductFields(
    name: Option<string>,
    price: Option<int>,
    category: Option<string>,
    description: Option<string>,
    stock: Option<int>)

  /** The create validators: name non-empty, price >= 0, known category, stock >= 0 when given. */
  predicate FieldsValid(f: ProductFields)
  {
    && f.name.Some? && f.name.value != ""
    && f.price.Some? && f.price.value >= 0
    && f.category.Some? && f.category.value in Categories
    && (f.stock.Some? ==> f.stock.value >= 0)
  }

  const NotFound: HttpError := HttpError(404, "Not found")

  /** The public path of each uploaded file, in upload order. */
  function UploadedImages(files: seq<string>): (r: seq<string>)
    ensures |r| == |files|
    ensures forall i :: 0 <= i < |r| ==> r[i] == UploadPrefix + files[i]
  {
    if |files| == 0 then [] else [UploadPrefix + files[0]] + UploadedImages(files[1..])
  }

  /**
   * Creating a product: the validators, then the schema default for stock;
   * the images are exactly the uploaded files (an image URL is ignored here).
   */
  function CreateProduct(id: string, f: ProductFields, files: seq<string>, now: int): (r: Result<Product>)
    ensures r.Ok? <==> FieldsValid(f)
    ensures r.Err? ==> r.error == ValidationFailed
    ensures r.Ok? ==>
              && ValidProduct(r.value)
              && r.value.id == id && r.value.createdAt == now
              && Some(r.value.name) == f.name && Some(r.value.price) == f.price
              && Some(r.value.category) == f.category && r.value.description == f.description
              && r.value.stock == (if f.stock.Some? then f.stock.value else DefaultStock)
              && |r.value.images| == |files|
              && forall i :: 0 <= i < |files| ==> r.value.images[i] == UploadPrefix + files[i]
  {
    if !FieldsValid(f) then Err(ValidationFailed)
    else
      Ok(Product(id, f.name.value, f.description, f.price.value, f.category.value,
                 UploadedImages(files),
                 if f.stock.Some? then f.stock.value else DefaultStock, now))
  }

  /**
   * The image list an update stores: uploaded files win; otherwise a non-empty
   * image URL becomes a one-element list; otherwise the images are kept.
   */
  function SelectImages(current: seq<string>, files: seq<string>, imageUrl: Option<string>): (r: seq<string>)
    ensures |files| > 0 ==> |r| == |files| && forall i :: 0 <= i < |files| ==> r[i] == UploadPrefix + files[i]
    ensures |files| == 0 && imageUrl.Some? && imageUrl.value != "" ==> r == [imageUrl.value]
    ensures |files| == 0 && (imageUrl.None? || imageUrl.value == "") ==> r == current
  {
    if |files| > 0 then UploadedImages(files)
    else if imageUrl.Some? && imageUrl.value != "" then [imageUrl.value]
    else current
  }

  /** The fields an update overwrites: those present in the body, and the selected images. */
  function ApplyFields(p: Product, f: ProductFields, files: seq<string>, imageUrl: Option<string>): Product
  {
    p.(name := if f.name.Some? then f.name.value else p.name,
       price := if f.price.Some? then f.price.value else p.price,
       category := if f.category.Some? then f.category.value else p.category,
       description := if f.description.Some? then f.description else p.description,
       stock := if f.stock.Some? then f.stock.value else p.stock,
       images := SelectImages(p.images, files, imageUrl))
  }

  function ProductId(p: Product): string
  {
    p.id
  }

  /** The first catalogue position holding `id`, as `findById` finds it. */
  function FindProductIndex(catalog: seq<Product>, id: string): (r: Option<nat>)
    ensures r.Some? ==> r.value < |catalog| && catalog[r.value].id == id
    ensures r.Some? ==> forall j :: 0 <= j < r.value ==> catalog[j].id != id
    ensures r.None? ==> forall j :: 0 <= j < |catalog| ==> catalog[j].id != id
  {
    FirstIndex(catalog, ProductId, id)
  }

  datatype Updated = Updated(catalog: seq<Product>, product: Product)

  /**
   * The update handler as written: the route runs the create validators, but
   * the handler never reads their verdict, and the store's update runs no
   * schema validators, so any field values are written.
   */
  function UpdateProductAsWritten(catalog: seq<Product>, id: string, f: ProductFields,
                                  files: seq<string>, imageUrl: Option<string>): (r: Result<Updated>)
    ensures r.Err? <==> FindProductIndex(catalog, id).None?
    ensures r.Err? ==> r.error == NotFound
    ensures r.Ok? ==> var i := FindProductIndex(catalog, id).value;
              r.value.catalog == catalog[i := r.value.product]
              && r.value.product == ApplyFields(catalog[i], f, files, imageUrl)
  {
    match FindProductIndex(catalog, id)
    case None => Err(NotFound)
    case Some(i) =>
      var p := ApplyFields(catalog[i], f, files, imageUrl);
      Ok(Updated(catalog[i := p], p))
  }

  /**
   * The update handler with its validators honoured: an invalid body is
   * rejected with 400 before the lookup, so every stored product stays valid.
   */
  function UpdateProduct(catalog: seq<Product>, id: string, f: ProductFields,
                         files: seq<string>, imageUrl: Option<string>): (r: Result<Updated>)
    ensures !FieldsValid(f) ==> r == Err(ValidationFailed)
    ensures FieldsValid(f) ==> r == UpdateProductAsWritten(catalog, id, f, files, imageUrl)
    ensures r.Ok? ==> ValidProduct(r.value.product)
    ensures r.Ok? && AllValid(catalog) ==> AllValid(r.value.catalog)
    ensures r.Ok? ==> |r.value.catalog| == |catalog|
                      && forall j :: 0 <= j < |catalog| && catalog[j].id != id ==> r.value.catalog[j] == catalog[j]
  {
    if !FieldsValid(f) then Err(ValidationFailed)
    else UpdateProductAsWritten(catalog, id, f, files, imageUrl)
  }

  /** The as-written update stores a negative price in a catalogue that was valid. */
  lemma UpdateAsWrittenStoresNegativePrice()
    ensures var p := Product("p1", "Case", None, 100, "case", [], 100, 0);
            var f := ProductFields(None, Some(-5), None, None, None);
            var r := UpdateProductAsWritten([p], "p1", f, [], None);
            && AllValid([p])
            && r.Ok? && r.value.product.price == -5 && !AllValid(r.value.catalog)
            && UpdateProduct([p], "p1", f, [], None) == Err(ValidationFailed)
  {
    var p := Product("p1", "Case", None, 100, "case", [], 100, 0);
    var r := UpdateProductAsWritten([p], "p1", ProductFields(None, Some(-5), None, None, None), [], None);
    assert r.value.catalog[0].price == -5;
  }

  /** Query parameters of the public product list (the text query is not modelled). */
  datatype ListQuery = ListQuery(
    category: Option<string>,
    minPrice: Option<int>,
    maxPrice: Option<int>,
    page: Option<int>,
    limit: Option<int>)

  /** The list validators. */
  predicate QueryValid(q: ListQuery)
  {
    && (q.category.Some? ==> q.category.value in Categories)
    && (q.minPrice.Some? ==> q.minPrice.value >= 0)
    && (q.maxPrice.Some? ==> q.maxPrice.value >= 0)
    && (q.page.Some? ==> q.page.value >= 1)
    && (q.limit.Some? ==> 1 <= q.limit.value <= MaxLimit)
  }

  /** The list filter: equal category, price bounds, each only when given. */
  predicate Matches(p: Product, q: ListQuery)
  {
    && (q.category.Some? ==> p.category == q.category.value)
    && (q.minPrice.Some? ==> p.price >= q.minPrice.value)
    && (q.maxPrice.Some? ==> p.price <= q.maxPrice.value)
  }

  /** The matching products in catalogue order, each as often as it is stored. */
  function FilterProducts(catalog: seq<Product>, q: ListQuery): (r: seq<Product>)
    ensures forall p :: multiset(r)[p] == if Matches(p, q) then multiset(catalog)[p] else 0
    ensures |r| <= |catalog|
    ensures forall i :: 0 <= i < |r| ==> Matches(r[i], q)
    ensures forall p :: p in r <==> p in catalog && Matches(p, q)
  {
    Filter(catalog, p => Matches(p, q))
  }

  function NewestFirst(p: Product): int
  {
    -p.createdAt
  }

  /**
   * Page `page` of `matching`, newest first: the `limit` products from
   * position `(page - 1) * limit` of the ordered matches.
   */
  function NewestPage(matching: seq<Product>, page: nat, limit: nat): (items: seq<Product>)
    requires page >= 1 && limit >= 1
    ensures var skip := Skip(page, limit);
            var sorted := SortBy(matching, NewestFirst);
            && |items| == PageLength(|matching|, skip, limit)
            && forall i :: 0 <= i < |items| ==> 0 <= skip + i < |sorted| && items[i] == sorted[skip + i]
    ensures |items| <= limit
    ensures forall i :: 0 <= i < |items| ==> items[i] in matching
    ensures forall i, j :: 0 <= i < j < |items| ==> items[i].createdAt >= items[j].createdAt
  {
    SkipNonNegative(page, limit);
    var skip: nat := Skip(page, limit);
    var ordered := SortBy(matching, NewestFirst);
    var items := Slice(ordered, skip, limit);
    SliceOfPermutation(matching, ordered, NewestFirst, skip, items);
    items
  }

  datatype Listing = Listing(items: seq<Product>, total: nat, page: nat, limit: nat)

  /**
   * The public list: validate the query, filter, order newest first, skip
   * `(page - 1) * limit` and return at most `limit`, with page 1 and limit 12
   * when they are not given.
   */
  function ListProducts(catalog: seq<Product>, q: ListQuery): (r: Result<Listing>)
    ensures r.Ok? <==> QueryValid(q)
    ensures r.Err? ==> r.error == ValidationFailed
    ensures r.Ok? ==>
              && r.value.page == (if q.page.Some? then q.page.value else DefaultPage)
              && r.value.limit == (if q.limit.Some? then q.limit.value else DefaultLimit)
              && 1 <= r.value.limit <= MaxLimit
              && |r.value.items| <= r.value.limit
              && r.value.total == |FilterProducts(catalog, q)|
    ensures r.Ok? ==> forall i :: 0 <= i < |r.value.items| ==> r.value.items[i] in catalog && Matches(r.value.items[i], q)
    ensures r.Ok? ==> forall i, j :: 0 <= i < j < |r.value.items| ==>
              r.value.items[i].createdAt >= r.value.items[j].createdAt
  {
    if !QueryValid(q) then Err(ValidationFailed)
    else
      var page: nat := if q.page.Some? then q.page.value else DefaultPage;
      var limit: nat := if q.limit.Some? then q.limit.value else DefaultLimit;
      var matching := FilterProducts(catalog, q);
      var items := NewestPage(matching, page, limit);
      assert forall i :: 0 <= i < |items| ==> items[i] in matching;
      Ok(Listing(items, |matching|, page, limit))
  }

  /**
   * The listed page is the slice of the newest-first matches that starts
   * after `(page - 1) * limit` of them.
   */
  lemma ListedPage(catalog: seq<Product>, q: ListQuery)
    requires QueryValid(q)
    ensures var l := ListProducts(catalog, q).value;
            var skip := Skip(l.page, l.limit);
            var sorted := SortBy(FilterProducts(catalog, q), NewestFirst);
            && skip >= 0
            && |l.items| == PageLength(l.total, skip, l.limit)
            && forall i :: 0 <= i < |l.items| ==> 0 <= skip + i < |sorted| && l.items[i] == sorted[skip + i]
  {
    var l := ListProducts(catalog, q).value;
    var matching := FilterProducts(catalog, q);
    assert l.page >= 1 && l.limit >= 1;
    assert l.items == NewestPage(matching, l.page, l.limit);
    assert l.total == |matching|;
    SkipNonNegative(l.page, l.limit);
  }
}
