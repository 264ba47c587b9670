/** The product service (server/services/productService.ts) over the
    `products` table. The table is the `products` field of a
    ProductService; its storage-level constraints (unique id, unique sku,
    unique non-null ean) are the class invariant, enforced where the
    database enforces them. Read-only queries are functions of the table;
    the operations that write it are methods. Fresh ids, the clock and
    `Date.now()` are parameters; the QR generator is a dependency fixed at
    construction. */
module Products {
  import opened Wrappers
  import opened Schema
  import opened Query

  const ProductNotFound := "Product not found"
  const SkuAlreadyExists := "Product with this SKU already exists"
  const ProductDeleted := "Product deleted successfully"

  datatype ProductError =
    | Invalid(issues: seq<Issue>)     // the insert schema rejected the input
    | NotFound                        // "Product not found"
    | DuplicateSku                    // "Product with this SKU already exists"
    | UniqueViolation(column: string) // a unique constraint of the table refused the write
    | EmptyBatch                      // an insert statement with no rows
    | QueryFailed(reason: QueryError) // the listing query was refused

  /** The message of an error the service raises itself; schema,
      constraint and query errors carry their library's message. */
  function Message(e: ProductError): Option<string> {
    match e
    case NotFound => Some(ProductNotFound)
    case DuplicateSku => Some(SkuAlreadyExists)
    case _ => None
  }

  /** The response of the listing: one page of products and its pagination. */
  datatype ProductPage = ProductPage(products: seq<Product>, pagination: PageInfo)

  // ---------------------------------------------------------------------
  // Table predicates
  // ---------------------------------------------------------------------

  predicate IdsDistinct(t: seq<Product>) {
    forall i, j :: 0 <= i < j < |t| ==> t[i].id != t[j].id
  }

  predicate SkusDistinct(t: seq<Product>) {
    forall i, j :: 0 <= i < j < |t| ==> t[i].sku != t[j].sku
  }

  /** The `ean` unique constraint: null never clashes with anything. */
  predicate EansDistinct(t: seq<Product>) {
    forall i, j :: 0 <= i < j < |t| ==> t[i].ean.None? || t[i].ean != t[j].ean
  }

  predicate HasId(t: seq<Product>, id: string) {
    exists i :: 0 <= i < |t| && t[i].id == id
  }

  predicate SkuInUse(t: seq<Product>, sku: string) {
    exists i :: 0 <= i < |t| && t[i].sku == sku
  }

  predicate EanInUse(t: seq<Product>, ean: Option<string>) {
    ean.Some? && exists i :: 0 <= i < |t| && t[i].ean == ean
  }

  /** Appending one row keeps the sku and ean constraints exactly when its
      sku is unused and its ean is null or unused. */
  lemma AppendKeepsConstraints(t: seq<Product>, p: Product)
    requires SkusDistinct(t) && EansDistinct(t)
    ensures SkusDistinct(t + [p]) <==> !SkuInUse(t, p.sku)
    ensures EansDistinct(t + [p]) <==> !EanInUse(t, p.ean)
  {
    if SkuInUse(t, p.sku) {
      var i :| 0 <= i < |t| && t[i].sku == p.sku;
      assert (t + [p])[i].sku == (t + [p])[|t|].sku;
    }
    if EanInUse(t, p.ean) {
      var i :| 0 <= i < |t| && t[i].ean == p.ean;
      assert (t + [p])[i].ean == (t + [p])[|t|].ean;
    }
  }

  // ---------------------------------------------------------------------
  // Queries
  // ---------------------------------------------------------------------

  /** `name ILIKE '%term%' OR brand ILIKE '%term%' OR sku ILIKE '%term%'`. */
  predicate MatchesSearch(p: Product, term: string) {
    var pattern := SearchPattern(term);
    ILike(p.name, pattern) || ILike(p.brand, pattern) || ILike(p.sku, pattern)
  }

  /** The rows that both the page query and the count query select. */
  function SearchResults(table: seq<Product>, search: Option<string>): (r: seq<Product>)
    ensures !IsSearching(search) ==> r == table
    ensures IsSearching(search) ==> forall p :: p in r <==> p in table && MatchesSearch(p, search.value)
    ensures forall p :: multiset(r)[p] <= multiset(table)[p]
  {
    if IsSearching(search) then Filter(table, (p: Product) => MatchesSearch(p, search.value))
    else table
  }

  /** For a term with no `%`, `_` or backslash, a product is found exactly
      when the term occurs, ignoring case, in its name, brand or sku. */
  lemma SearchIsCaseInsensitiveSubstring(table: seq<Product>, term: string, p: Product)
    requires term != "" && IsLiteral(term)
    ensures p in SearchResults(table, Some(term)) <==>
      p in table &&
      (ContainsIgnoringCase(p.name, term) || ContainsIgnoringCase(p.brand, term) || ContainsIgnoringCase(p.sku, term))
  {
    ILikeSearchIsContainsIgnoringCase(p.name, term);
    ILikeSearchIsContainsIgnoringCase(p.brand, term);
    ILikeSearchIsContainsIgnoringCase(p.sku, term);
  }

  /** `getAllProducts(page, limit, search)`: the window of at most `limit`
      matching products from offset `(page - 1) * limit`, with the number
      of matching products and the page count; an offset or limit beyond
      the `bigint` range, or a negative one, is refused by the database. */
  function GetAllProducts(table: seq<Product>, page: int, limit: int, search: Option<string>): (r: Result<ProductPage, ProductError>)
    ensures r == Err(QueryFailed(OutOfRange)) <==> !Bindable(page, limit)
    ensures r == Err(QueryFailed(NegativeOffset)) <==> Bindable(page, limit) && PageOffset(page, limit) < 0
    ensures r == Err(QueryFailed(NegativeLimit)) <==> Bindable(page, limit) && PageOffset(page, limit) >= 0 && limit < 0
    ensures r.Ok? ==> 0 <= PageOffset(page, limit) <= MaxBigint && 0 <= limit <= MaxBigint
    ensures r.Ok? ==>
      var matching := SearchResults(table, search);
      && r.value.pagination == PageInfo(page, limit, |matching|, PageCount(|matching|, limit))
      && r.value.products == Window(matching, PageOffset(page, limit), limit)
    ensures r.Ok? && IsSearching(search) ==>
      forall p :: p in r.value.products ==> p in table && MatchesSearch(p, search.value)
  {
    var matching := SearchResults(table, search);
    match Paginate(matching, page, limit)
    case Err(e) => Err(QueryFailed(e))
    case Ok((rows, info)) => Ok(ProductPage(rows, info))
  }

  function IndexOfId(table: seq<Product>, id: string): (r: Option<nat>)
    ensures r.Some? ==> r.value < |table| && table[r.value].id == id
    ensures r.None? <==> !HasId(table, id)
  {
    FirstIndex(table, (p: Product) => p.id == id)
  }

  /** `getProductById(id)`: the product with that id, or "Product not found". */
  function GetProductById(table: seq<Product>, id: string): (r: Result<Product, ProductError>)
    ensures r.Ok? <==> HasId(table, id)
    ensures r.Ok? ==> r.value in table && r.value.id == id
    ensures r.Ok? ==> r.value == table[IndexOfId(table, id).value]
    ensures r.Err? ==> r.error == NotFound && Message(r.error) == Some(ProductNotFound)
  {
    match IndexOfId(table, id)
    case None => Err(NotFound)
    case Some(i) => Ok(table[i])
  }

  // ---------------------------------------------------------------------
  // Building rows
  // ---------------------------------------------------------------------

  /** The text the QR code of a product encodes. */
  function QrPayload(name: string, brand: string, sku: string): string {
    "Product: " + name + "\nBrand: " + brand + "\nSKU: " + sku
  }

  /** The row an insert stores for validated data. */
  function NewRow(data: NewProduct, id: string, qrCode: string, now: Timestamp): (p: Product)
    ensures p.id == id && p.qrCode == Some(qrCode) && p.createdAt == now && p.updatedAt == now
    ensures p.name == data.name && p.brand == data.brand && p.netVolume == data.netVolume
    ensures p.vintage == data.vintage && p.productType == data.productType
    ensures p.sugarContent == data.sugarContent && p.appellation == data.appellation
    ensures p.sku == data.sku && p.alcohol == data.alcohol && p.country == data.country
    ensures p.ean == data.ean && p.imageUrl == data.imageUrl
  {
    Product(id, data.name, data.brand, data.netVolume, data.vintage, data.productType,
            data.sugarContent, data.appellation, data.sku, data.alcohol, data.country,
            data.ean, data.imageUrl, Some(qrCode), now, now)
  }

  /** The rows of one bulk insert statement, each with its QR code. */
  function BatchRows(data: seq<NewProduct>, ids: seq<string>, qr: string -> string, now: Timestamp): (rows: seq<Product>)
    requires |ids| == |data|
    ensures |rows| == |data|
    ensures forall k :: 0 <= k < |data| ==>
      rows[k] == NewRow(data[k], ids[k], qr(QrPayload(data[k].name, data[k].brand, data[k].sku)), now)
  {
    seq(|data|, k requires 0 <= k < |data| =>
      NewRow(data[k], ids[k], qr(QrPayload(data[k].name, data[k].brand, data[k].sku)), now))
  }

  /** The number a string of decimal digits spells, most significant first. */
  function DigitsValue(s: string): nat
    requires forall i :: 0 <= i < |s| ==> IsDigit(s[i])
  {
    if s == [] then 0
    else
      assert IsDigit(s[|s| - 1]);
      DigitsValue(s[..|s| - 1]) * 10 + (s[|s| - 1] as int - '0' as int)
  }

  /** The decimal digits of `Date.now()` as a template literal renders
      them: the digits spell n, with no leading zero. */
  function DecimalString(n: nat): (s: string)
    ensures |s| >= 1
    ensures forall i :: 0 <= i < |s| ==> IsDigit(s[i])
    ensures DigitsValue(s) == n
    ensures s[0] == '0' ==> s == "0"
    decreases n
  {
    var digit := ['0' + (n % 10) as char];
    if n < 10 then digit
    else
      var s := DecimalString(n / 10) + digit;
      assert s[..|s| - 1] == DecimalString(n / 10);
      s
  }

  /** The copy `duplicateProduct` creates: name + " (Copy)" and
      sku + "-copy-" + the millisecond clock, every other field the source's. */
  function CopyOf(p: Product, nowMillis: nat): (c: NewProduct)
    ensures c.name == p.name + " (Copy)"
    ensures c.sku == p.sku + "-copy-" + DecimalString(nowMillis)
    ensures c.brand == p.brand && c.netVolume == p.netVolume && c.vintage == p.vintage
    ensures c.productType == p.productType && c.sugarContent == p.sugarContent
    ensures c.appellation == p.appellation && c.alcohol == p.alcohol
    ensures c.country == p.country && c.ean == p.ean && c.imageUrl == p.imageUrl
  {
    NewProduct(p.name + " (Copy)", p.brand, p.netVolume, p.vintage, p.productType,
               p.sugarContent, p.appellation, p.sku + "-copy-" + DecimalString(nowMillis),
               p.alcohol, p.country, p.ean, p.imageUrl)
  }

  /** A row as a JavaScript object: all sixteen columns, null where a
      column is null; the two timestamps are `Date` objects. */
  function RowRaw(p: Product): Raw {
    map[
      "id" := JString(p.id),
      "name" := JString(p.name), "brand" := JString(p.brand),
      "netVolume" := JString(p.netVolume), "vintage" := OptJson(p.vintage),
      "type" := JString(p.productType), "sugarContent" := OptJson(p.sugarContent),
      "appellation" := OptJson(p.appellation), "sku" := JString(p.sku),
      "alcohol" := OptJson(p.alcohol), "country" := JString(p.country),
      "ean" := OptJson(p.ean), "imageUrl" := OptJson(p.imageUrl),
      "qrCode" := OptJson(p.qrCode), "createdAt" := JOther, "updatedAt" := JOther]
  }

  /** The columns `duplicateProduct` deletes from the spread row. */
  const RowOnlyKeys: set<string> := {"id", "qrCode", "createdAt", "updatedAt"}

  /** `{...original, sku, name}` with id, createdAt, updatedAt and qrCode deleted. */
  function DuplicateBody(p: Product, nowMillis: nat): Raw {
    var spread := RowRaw(p)["sku" := JString(p.sku + "-copy-" + DecimalString(nowMillis))]
                           ["name" := JString(p.name + " (Copy)")];
    spread - RowOnlyKeys
  }

  lemma RowRawKeys(p: Product)
    ensures RowRaw(p).Keys == ProductKeys + RowOnlyKeys
  {
  }

  lemma DuplicateBodyKeys(p: Product, nowMillis: nat)
    ensures DuplicateBody(p, nowMillis).Keys == ProductKeys
  {
    RowRawKeys(p);
    RowOnlyKeysAreNotProductKeys();
  }

  /** The spread row holds the source's values in the columns the copy keeps. */
  lemma RowRawKeptRequired(p: Product)
    ensures var raw := RowRaw(p);
      && raw["brand"] == JString(p.brand) && raw["netVolume"] == JString(p.netVolume)
      && raw["type"] == JString(p.productType) && raw["country"] == JString(p.country)
  {
  }

  lemma RowRawKeptOptional(p: Product)
    ensures var raw := RowRaw(p);
      && raw["vintage"] == OptJson(p.vintage) && raw["sugarContent"] == OptJson(p.sugarContent)
      && raw["appellation"] == OptJson(p.appellation) && raw["alcohol"] == OptJson(p.alcohol)
      && raw["ean"] == OptJson(p.ean) && raw["imageUrl"] == OptJson(p.imageUrl)
  {
  }

  /** The duplicate body holds the new name and sku. */
  lemma DuplicateBodyRenamed(p: Product, nowMillis: nat)
    ensures var body := DuplicateBody(p, nowMillis);
      && body["name"] == JString(p.name + " (Copy)")
      && body["sku"] == JString(p.sku + "-copy-" + DecimalString(nowMillis))
  {
  }

  /** Every other insert column of the duplicate body is the row's. */
  lemma DuplicateBodyKeeps(p: Product, nowMillis: nat, k: string)
    requires k in ProductKeys && k != "sku" && k != "name"
    ensures k in DuplicateBody(p, nowMillis) && DuplicateBody(p, nowMillis)[k] == RowRaw(p)[k]
  {
    RowRawKeys(p);
    RowOnlyKeysAreNotProductKeys();
  }

  /** Spreading the row, overriding sku and name, and deleting the four
      row-only columns gives exactly the copy's insert body. */
  lemma DuplicateBodyIsCopyBody(p: Product, nowMillis: nat)
    ensures DuplicateBody(p, nowMillis) == ProductRaw(CopyOf(p, nowMillis))
  {
    var c := CopyOf(p, nowMillis);
    DuplicateBodyKeys(p, nowMillis);
    ProductRawKeys(c);
    DuplicateBodyRenamed(p, nowMillis);
    DuplicateBodyKeeps(p, nowMillis, "brand");
    DuplicateBodyKeeps(p, nowMillis, "netVolume");
    DuplicateBodyKeeps(p, nowMillis, "type");
    DuplicateBodyKeeps(p, nowMillis, "country");
    DuplicateBodyKeeps(p, nowMillis, "vintage");
    DuplicateBodyKeeps(p, nowMillis, "sugarContent");
    DuplicateBodyKeeps(p, nowMillis, "appellation");
    DuplicateBodyKeeps(p, nowMillis, "alcohol");
    DuplicateBodyKeeps(p, nowMillis, "ean");
    DuplicateBodyKeeps(p, nowMillis, "imageUrl");
    RowRawKeptRequired(p);
    RowRawKeptOptional(p);
    ProductRawRequired(c);
    ProductRawOptional(c);
    ProductBodiesAgree(DuplicateBody(p, nowMillis), ProductRaw(c));
  }

  /** The body `duplicateProduct` builds passes the insert schema and
      yields the copy. */
  lemma DuplicateBodyParses(p: Product, nowMillis: nat)
    ensures ParseInsertProduct(DuplicateBody(p, nowMillis)) == Ok(CopyOf(p, nowMillis))
  {
    DuplicateBodyIsCopyBody(p, nowMillis);
    ParseProductRaw(CopyOf(p, nowMillis));
  }

  /** A duplicate carries the source's ean, so under the unique constraint
      a product that has an ean can never be duplicated. */
  lemma DuplicateOfProductWithEanClashes(table: seq<Product>, i: nat, nowMillis: nat)
    requires i < |table| && table[i].ean.Some?
    ensures EanInUse(table, CopyOf(table[i], nowMillis).ean)
  {
  }

  /** The sku check an update performs: a supplied, non-empty sku that
      differs from the current one. */
  predicate ChecksSku(patch: ProductPatch, current: Product) {
    patch.sku.Some? && patch.sku.value != "" && patch.sku.value != current.sku
  }

  /** `set({...productData, updatedAt: new Date()})` on one row. */
  function ApplyPatch(p: Product, patch: ProductPatch, now: Timestamp): (r: Product)
    ensures r.id == p.id && r.qrCode == p.qrCode && r.createdAt == p.createdAt && r.updatedAt == now
    ensures r.name == Pick(patch.name, p.name) && r.brand == Pick(patch.brand, p.brand)
    ensures r.netVolume == Pick(patch.netVolume, p.netVolume) && r.vintage == Pick(patch.vintage, p.vintage)
    ensures r.productType == Pick(patch.productType, p.productType)
    ensures r.sugarContent == Pick(patch.sugarContent, p.sugarContent)
    ensures r.appellation == Pick(patch.appellation, p.appellation) && r.sku == Pick(patch.sku, p.sku)
    ensures r.alcohol == Pick(patch.alcohol, p.alcohol) && r.country == Pick(patch.country, p.country)
    ensures r.ean == Pick(patch.ean, p.ean) && r.imageUrl == Pick(patch.imageUrl, p.imageUrl)
  {
    p.(name := Pick(patch.name, p.name), brand := Pick(patch.brand, p.brand),
       netVolume := Pick(patch.netVolume, p.netVolume), vintage := Pick(patch.vintage, p.vintage),
       productType := Pick(patch.productType, p.productType),
       sugarContent := Pick(patch.sugarContent, p.sugarContent),
       appellation := Pick(patch.appellation, p.appellation), sku := Pick(patch.sku, p.sku),
       alcohol := Pick(patch.alcohol, p.alcohol), country := Pick(patch.country, p.country),
       ean := Pick(patch.ean, p.ean), imageUrl := Pick(patch.imageUrl, p.imageUrl),
       updatedAt := now)
  }

  const EmptyPatch := ProductPatch(None, None, None, None, None, None, None, None, None, None, None, None)

  /** An update that supplies no field only moves updatedAt, and performs
      no sku check. */
  lemma EmptyPatchTouchesOnlyUpdatedAt(p: Product, now: Timestamp)
    ensures ApplyPatch(p, EmptyPatch, now) == p.(updatedAt := now)
    ensures !ChecksSku(EmptyPatch, p)
  {
  }

  /** Removing the row with an id removes exactly that product: with
      distinct ids, what remains is every other row. */
  lemma RemoveRowOfId(t: seq<Product>, i: nat)
    requires IdsDistinct(t) && i < |t|
    ensures forall p :: p in RemoveAt(t, i) <==> p in t && p.id != t[i].id
    ensures !HasId(RemoveAt(t, i), t[i].id)
  {
    var r := RemoveAt(t, i);
    forall p | p in t && p.id != t[i].id ensures p in r {
      var k :| 0 <= k < |t| && t[k] == p;
      if k < i { assert r[k] == p; } else { assert r[k - 1] == p; }
    }
  }

  // ---------------------------------------------------------------------
  // The service over its table
  // ---------------------------------------------------------------------

  class ProductService {
    const generateQr: string -> string
    var products: seq<Product>

    /** The storage-level constraints of the table. */
    ghost predicate Valid()
      reads this
    {
      IdsDistinct(products) && SkusDistinct(products) && EansDistinct(products)
    }

    constructor (generateQr: string -> string)
      ensures Valid() && this.generateQr == generateQr && products == []
    {
      this.generateQr := generateQr;
      products := [];
    }

    /** `createProduct(productData)`. */
    method CreateProduct(raw: Raw, freshId: string, now: Timestamp) returns (r: Result<Product, ProductError>)
      requires Valid() && !HasId(products, freshId)
      modifies this
      ensures Valid()
      ensures var parsed := ParseInsertProduct(raw);
        && (parsed.Err? ==> r == Err(Invalid(parsed.error)))
        && (parsed.Ok? && SkuInUse(old(products), parsed.value.sku) ==> r == Err(DuplicateSku))
        && (parsed.Ok? && !SkuInUse(old(products), parsed.value.sku) && EanInUse(old(products), parsed.value.ean)
            ==> r == Err(UniqueViolation("ean")))
        && (parsed.Ok? && !SkuInUse(old(products), parsed.value.sku) && !EanInUse(old(products), parsed.value.ean)
            ==> r == Ok(NewRow(parsed.value, freshId,
                               generateQr(QrPayload(parsed.value.name, parsed.value.brand, parsed.value.sku)), now)))
      ensures r.Err? ==> products == old(products)
      ensures r.Ok? ==> products == old(products) + [r.value]
      ensures r == Err(DuplicateSku) ==> Message(r.error) == Some(SkuAlreadyExists)
    {
      var parsed := ParseInsertProduct(raw);
      if parsed.Err? {
        return Err(Invalid(parsed.error));
      }
      var data := parsed.value;
      if SkuInUse(products, data.sku) {
        return Err(DuplicateSku);
      }
      var qrCode := generateQr(QrPayload(data.name, data.brand, data.sku));
      var row := NewRow(data, freshId, qrCode, now);
      AppendKeepsConstraints(products, row);
      if EanInUse(products, row.ean) {
        return Err(UniqueViolation("ean"));
      }
      products := products + [row];
      r := Ok(row);
    }

    /** `updateProduct(id, productData)`. */
    method UpdateProduct(id: string, patch: ProductPatch, now: Timestamp) returns (r: Result<Product, ProductError>)
      requires Valid()
      modifies this
      ensures Valid()
      ensures r.Err? ==> products == old(products)
      ensures !HasId(old(products), id) ==> r == Err(NotFound)
      ensures HasId(old(products), id) ==>
        var i := IndexOfId(old(products), id).value;
        var current := old(products)[i];
        var updated := ApplyPatch(current, patch, now);
        && (ChecksSku(patch, current) && SkuInUse(old(products), patch.sku.value) ==> r == Err(DuplicateSku))
        && (r.Err? && r.error.UniqueViolation? ==>
              (r.error.column == "sku" && !SkusDistinct(old(products)[i := updated])) ||
              (r.error.column == "ean" && !EansDistinct(old(products)[i := updated])))
        && (!(ChecksSku(patch, current) && SkuInUse(old(products), patch.sku.value)) &&
            !(SkusDistinct(old(products)[i := updated]) && EansDistinct(old(products)[i := updated]))
            ==> r.Err? && r.error.UniqueViolation?)
        && (r.Ok? <==>
              !(ChecksSku(patch, current) && SkuInUse(old(products), patch.sku.value)) &&
              SkusDistinct(old(products)[i := updated]) && EansDistinct(old(products)[i := updated]))
        && (r.Ok? ==> r.value == updated && products == old(products)[i := updated])
    {
      var found := IndexOfId(products, id);
      if found.None? {
        return Err(NotFound);
      }
      var i := found.value;
      var current := products[i];
      if ChecksSku(patch, current) && SkuInUse(products, patch.sku.value) {
        return Err(DuplicateSku);
      }
      var updated := ApplyPatch(current, patch, now);
      var next := products[i := updated];
      if !SkusDistinct(next) {
        return Err(UniqueViolation("sku"));
      }
      if !EansDistinct(next) {
        return Err(UniqueViolation("ean"));
      }
      assert IdsDistinct(next) by {
        forall a, b | 0 <= a < b < |next| ensures next[a].id != next[b].id {
          assert next[a].id == products[a].id && next[b].id == products[b].id;
        }
      }
      products := next;
      r := Ok(updated);
    }

    /** `deleteProduct(id)`. */
    method DeleteProduct(id: string) returns (r: Result<string, ProductError>)
      requires Valid()
      modifies this
      ensures Valid()
      ensures r.Err? <==> !HasId(old(products), id)
      ensures r.Err? ==> r.error == NotFound && products == old(products)
      ensures r.Ok? ==> r.value == ProductDeleted
      ensures r.Ok? ==> products == RemoveAt(old(products), IndexOfId(old(products), id).value)
      ensures r.Ok? ==> !HasId(products, id)
      ensures r.Ok? ==> forall p :: p in products <==> p in old(products) && p.id != id
    {
      var found := IndexOfId(products, id);
      if found.None? {
        return Err(NotFound);
      }
      RemoveRowOfId(products, found.value);
      products := RemoveAt(products, found.value);
      r := Ok(ProductDeleted);
    }

    /** `duplicateProduct(id)`: a copy of the product with that id, created
        through `createProduct`. */
    method DuplicateProduct(id: string, nowMillis: nat, freshId: string, now: Timestamp)
      returns (r: Result<Product, ProductError>)
      requires Valid() && !HasId(products, freshId)
      modifies this
      ensures Valid()
      ensures r.Err? ==> products == old(products)
      ensures !HasId(old(products), id) ==> r == Err(NotFound)
      ensures HasId(old(products), id) ==>
        var source := old(products)[IndexOfId(old(products), id).value];
        var copy := CopyOf(source, nowMillis);
        && (SkuInUse(old(products), copy.sku) ==> r == Err(DuplicateSku))
        && (!SkuInUse(old(products), copy.sku) && source.ean.Some? ==> r == Err(UniqueViolation("ean")))
        && (!SkuInUse(old(products), copy.sku) && source.ean.None? ==>
              r == Ok(NewRow(copy, freshId, generateQr(QrPayload(copy.name, copy.brand, copy.sku)), now)))
      ensures r.Ok? ==> products == old(products) + [r.value]
    {
      var original := GetProductById(products, id);
      if original.Err? {
        return Err(NotFound);
      }
      ghost var i := IndexOfId(products, id).value;
      var body := DuplicateRequest(original.value, nowMillis);
      if original.value.ean.Some? {
        DuplicateOfProductWithEanClashes(products, i, nowMillis);
      }
      r := CreateProduct(body, freshId, now);
    }

    /** Builds the body `duplicateProduct` hands to `createProduct`. */
    static method DuplicateRequest(source: Product, nowMillis: nat) returns (body: Raw)
      ensures ParseInsertProduct(body) == Ok(CopyOf(source, nowMillis))
    {
      body := DuplicateBody(source, nowMillis);
      DuplicateBodyParses(source, nowMillis);
    }

    /** `bulkCreateProducts(productsData)`: every record validated first,
        then all of them inserted in one statement, or none. */
    method BulkCreateProducts(raws: seq<Raw>, freshIds: seq<string>, now: Timestamp)
      returns (r: Result<seq<Product>, ProductError>)
      requires Valid()
      requires |freshIds| == |raws| && NoDuplicates(freshIds)
      requires forall k :: 0 <= k < |freshIds| ==> !HasId(products, freshIds[k])
      modifies this
      ensures Valid()
      ensures r.Err? ==> products == old(products)
      ensures ParseEach(raws, ParseInsertProduct).Err? ==> r == Err(Invalid(ParseEach(raws, ParseInsertProduct).error))
      ensures ParseEach(raws, ParseInsertProduct).Ok? ==>
        var rows := BatchRows(ParseEach(raws, ParseInsertProduct).value, freshIds, generateQr, now);
        && (raws == [] ==> r == Err(EmptyBatch))
        && (r.Err? && r.error.UniqueViolation? ==>
              (r.error.column == "sku" && !SkusDistinct(old(products) + rows)) ||
              (r.error.column == "ean" && !EansDistinct(old(products) + rows)))
        && (raws != [] && !(SkusDistinct(old(products) + rows) && EansDistinct(old(products) + rows))
            ==> r.Err? && r.error.UniqueViolation?)
        && (r.Ok? <==> raws != [] && SkusDistinct(old(products) + rows) && EansDistinct(old(products) + rows))
        && (r.Ok? ==> r.value == rows && products == old(products) + rows)
    {
      var parsed := ParseEach(raws, ParseInsertProduct);
      if parsed.Err? {
        return Err(Invalid(parsed.error));
      }
      var rows := BatchRows(parsed.value, freshIds, generateQr, now);
      if rows == [] {
        return Err(EmptyBatch);
      }
      var next := products + rows;
      if !SkusDistinct(next) {
        return Err(UniqueViolation("sku"));
      }
      if !EansDistinct(next) {
        return Err(UniqueViolation("ean"));
      }
      assert IdsDistinct(next) by {
        forall a, b | 0 <= a < b < |next| ensures next[a].id != next[b].id {
          if b >= |products| {
            assert next[b].id == freshIds[b - |products|];
            if a >= |products| {
              assert next[a].id == freshIds[a - |products|];
            } else {
              assert !HasId(products, freshIds[b - |products|]);
            }
          }
        }
      }
      products := next;
      r := Ok(rows);
    }
  }
}
