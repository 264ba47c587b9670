/** The table shapes of the three stored entities, the insert schemas that
    validate request bodies and spreadsheet rows before an insert, and the
    login and registration predicates (shared/schema.ts).

    A request body or spreadsheet row is loosely typed: a map from keys to
    JSON values. An insert schema accepts it when every required field is a
    string and every optional field is absent, null or of its type; keys the
    schema does not know (including the omitted `id`, `createdAt`,
    `updatedAt`, `qrCode` and `role`) are dropped. A rejected input yields
    the issues of its failing fields, in the schema's field order: one per
    field, except that a list reports each element that is not a string. */
module Schema {
  import opened Wrappers
  import Query

  /** A point in time, in milliseconds. */
  type Timestamp = int

  // ---------------------------------------------------------------------
  // Loosely typed input
  // ---------------------------------------------------------------------

  /** The JSON values a request body or a parsed spreadsheet row can carry;
      numbers, booleans and objects are all `JOther`. */
  datatype Json = JNull | JString(text: string) | JArray(items: seq<Json>) | JOther

  type Raw = map<string, Json>

  datatype IssueCode =
    | Required      // a required key is absent
    | InvalidType   // a key holds a value of the wrong type
    | InvalidEmail  // not a well-formed email address
    | TooShort      // a string below its minimum length
    | Mismatch      // password and confirmPassword differ

  /** One validation failure, reported against the path of the field, or
      against the path of one element of a list field. */
  datatype Issue =
    | Issue(path: string, code: IssueCode)
    | ElementIssue(path: string, index: nat, code: IssueCode)

  const PasswordsDontMatch := "Passwords don't match"

  /** The message an issue carries where the schemas set one; zod's own
      default messages are not modelled. */
  function IssueMessage(code: IssueCode): Option<string> {
    if code == Mismatch then Some(PasswordsDontMatch) else None
  }

  /** How an insert schema treats one column: a not-null text column is a
      required string; a nullable text column is optional and nullable; the
      nullable `text[]` column is an optional, nullable list of strings. */
  datatype FieldKind = RequiredText | OptionalText | OptionalTextList

  predicate IsTextList(j: Json) {
    j.JArray? && forall i :: 0 <= i < |j.items| ==> j.items[i].JString?
  }

  predicate TextGiven(raw: Raw, key: string) {
    key in raw && raw[key].JString?
  }

  predicate FieldAccepts(raw: Raw, key: string, kind: FieldKind) {
    match kind
    case RequiredText => TextGiven(raw, key)
    case OptionalText => key !in raw || raw[key].JNull? || raw[key].JString?
    case OptionalTextList => key !in raw || raw[key].JNull? || IsTextList(raw[key])
  }

  /** The positions, in increasing order, of the elements of `items` that
      are not strings. */
  function BadElements(items: seq<Json>): (r: seq<nat>)
    ensures forall k :: 0 <= k < |r| ==> r[k] < |items|
  {
    if items == [] then []
    else
      var last := |items| - 1;
      var rest := BadElements(items[..last]);
      if items[last].JString? then rest else rest + [last]
  }

  /** Every listed position holds an element that is not a string. */
  lemma {:induction false} BadElementsSound(items: seq<Json>)
    ensures forall k :: 0 <= k < |BadElements(items)| ==> !items[BadElements(items)[k]].JString?
  {
    if items != [] {
      BadElementsSound(items[..|items| - 1]);
    }
  }

  /** Every element that is not a string is listed. */
  lemma {:induction false} BadElementsComplete(items: seq<Json>)
    ensures forall i :: 0 <= i < |items| && !items[i].JString? ==> i in BadElements(items)
  {
    if items != [] {
      var front := items[..|items| - 1];
      BadElementsComplete(front);
      assert forall i :: 0 <= i < |front| ==> items[i] == front[i];
    }
  }

  /** The positions are listed in increasing order. */
  lemma {:induction false} BadElementsIncreasing(items: seq<Json>)
    ensures forall k, l :: 0 <= k < l < |BadElements(items)| ==> BadElements(items)[k] < BadElements(items)[l]
  {
    if items != [] {
      BadElementsIncreasing(items[..|items| - 1]);
    }
  }

  /** One wrong-type issue for each element of `items` that is not a
      string, in element order. */
  function ElementIssues(key: string, items: seq<Json>): (r: seq<Issue>)
    ensures r == [] <==> forall i :: 0 <= i < |items| ==> items[i].JString?
    ensures forall k :: 0 <= k < |r| ==>
      r[k].ElementIssue? && r[k].path == key && r[k].code == InvalidType &&
      r[k].index < |items| && !items[r[k].index].JString?
    ensures forall i :: 0 <= i < |items| && !items[i].JString? ==> ElementIssue(key, i, InvalidType) in r
    ensures forall k, l :: 0 <= k < l < |r| ==> r[k].index < r[l].index
  {
    var bad := BadElements(items);
    BadElementsSound(items);
    BadElementsComplete(items);
    BadElementsIncreasing(items);
    var r := seq(|bad|, k requires 0 <= k < |bad| => ElementIssue(key, bad[k], InvalidType));
    assert forall i :: 0 <= i < |items| && !items[i].JString? ==> ElementIssue(key, i, InvalidType) in r by {
      forall i | 0 <= i < |items| && !items[i].JString?
        ensures ElementIssue(key, i, InvalidType) in r
      {
        var k :| 0 <= k < |bad| && bad[k] == i;
        assert r[k] == ElementIssue(key, i, InvalidType);
      }
    }
    assert forall k :: 0 <= k < |r| ==> r[k].index == bad[k];
    assert r != [] ==> !items[r[0].index].JString?;
    r
  }

  /** The list field `key` holds a list, so its issues are per element. */
  predicate ChecksElements(raw: Raw, key: string, kind: FieldKind) {
    kind == OptionalTextList && key in raw && raw[key].JArray?
  }

  /** The issues one field contributes: none, or one naming the field, or,
      for a list holding elements that are not strings, one per such
      element. */
  function FieldIssues(raw: Raw, key: string, kind: FieldKind): (r: seq<Issue>)
    ensures r == [] <==> FieldAccepts(raw, key, kind)
    ensures forall k :: 0 <= k < |r| ==> r[k].path == key
    ensures !FieldAccepts(raw, key, kind) && key !in raw ==> r == [Issue(key, Required)]
    ensures !FieldAccepts(raw, key, kind) && key in raw && !ChecksElements(raw, key, kind) ==>
      r == [Issue(key, InvalidType)]
    ensures ChecksElements(raw, key, kind) ==> r == ElementIssues(key, raw[key].items)
  {
    if FieldAccepts(raw, key, kind) then []
    else if key !in raw then [Issue(key, Required)]
    else if ChecksElements(raw, key, kind) then ElementIssues(key, raw[key].items)
    else [Issue(key, InvalidType)]
  }

  function OptText(raw: Raw, key: string): (r: Option<string>)
    ensures r.Some? <==> TextGiven(raw, key)
    ensures r.Some? ==> r.value == raw[key].text
  {
    if TextGiven(raw, key) then Some(raw[key].text) else None
  }

  function Texts(items: seq<Json>): (r: seq<string>)
    requires forall i :: 0 <= i < |items| ==> items[i].JString?
    ensures |r| == |items|
    ensures forall i :: 0 <= i < |items| ==> r[i] == items[i].text
  {
    seq(|items|, i requires 0 <= i < |items| => items[i].text)
  }

  function OptTextList(raw: Raw, key: string): (r: Option<seq<string>>)
    ensures r.Some? <==> key in raw && IsTextList(raw[key])
    ensures r.Some? ==> |r.value| == |raw[key].items|
    ensures r.Some? ==> forall i :: 0 <= i < |r.value| ==> r.value[i] == raw[key].items[i].text
  {
    if key in raw && IsTextList(raw[key]) then Some(Texts(raw[key].items)) else None
  }

  function OptJson(v: Option<string>): (j: Json)
    ensures v.None? <==> j.JNull?
    ensures v.Some? ==> j == JString(v.value)
  {
    if v.Some? then JString(v.value) else JNull
  }

  function ListJson(v: Option<seq<string>>): (j: Json)
    ensures v.None? <==> j.JNull?
    ensures v.Some? ==> IsTextList(j) && Texts(j.items) == v.value
  {
    if v.None? then JNull else JArray(seq(|v.value|, i requires 0 <= i < |v.value| => JString(v.value[i])))
  }

  // ---------------------------------------------------------------------
  // users
  // ---------------------------------------------------------------------

  /** A row of `users`; `email` carries a unique constraint. */
  datatype User = User(
    id: string, email: string, password: string, name: string, role: string,
    createdAt: Timestamp, updatedAt: Timestamp)

  /** A user as every service response carries it: the row without its password. */
  datatype PublicUser = PublicUser(
    id: string, email: string, name: string, role: string,
    createdAt: Timestamp, updatedAt: Timestamp)

  /** The role column's default; the insert schema omits `role`. */
  const DefaultRole := "user"

  /** What `insertUserSchema` leaves of a body. */
  datatype NewUser = NewUser(email: string, password: string, name: string)

  function InsertUserIssues(raw: Raw): seq<Issue> {
    FieldIssues(raw, "email", RequiredText)
    + FieldIssues(raw, "password", RequiredText)
    + FieldIssues(raw, "name", RequiredText)
  }

  /** `insertUserSchema.parse`: email, password and name are required
      strings; nothing else about them is checked. */
  function ParseInsertUser(raw: Raw): (r: Result<NewUser, seq<Issue>>)
    ensures r.Ok? <==> TextGiven(raw, "email") && TextGiven(raw, "password") && TextGiven(raw, "name")
    ensures r.Err? ==> r.error == InsertUserIssues(raw) && r.error != []
    ensures r.Ok? ==> r.value == NewUser(raw["email"].text, raw["password"].text, raw["name"].text)
  {
    var issues := InsertUserIssues(raw);
    if issues != [] then Err(issues)
    else Ok(NewUser(raw["email"].text, raw["password"].text, raw["name"].text))
  }

  /** A key outside the user insert schema, such as `role` or
      `confirmPassword`, never changes what the schema yields. */
  lemma InsertUserIgnoresOtherKeys(raw: Raw, key: string, v: Json)
    requires key != "email" && key != "password" && key != "name"
    ensures ParseInsertUser(raw[key := v]) == ParseInsertUser(raw)
  {
    assert forall k :: k != key ==> (k in raw[key := v] <==> k in raw);
  }

  // ---------------------------------------------------------------------
  // Login and registration predicates
  // ---------------------------------------------------------------------

  predicate IsAsciiLetter(c: char) { 'a' <= c <= 'z' || 'A' <= c <= 'Z' }
  predicate IsDigit(c: char) { '0' <= c <= '9' }
  predicate IsAlnum(c: char) { IsAsciiLetter(c) || IsDigit(c) }

  predicate IsLocalChar(c: char) {
    IsAlnum(c) || c == '_' || c == '\'' || c == '+' || c == '-' || c == '.'
  }

  predicate IsLocalEnd(c: char) {
    IsAlnum(c) || c == '_' || c == '+' || c == '-'
  }

  /** The part before the `@`: local characters, not starting with a dot,
      ending in a letter, digit, `_`, `+` or `-`, with no two dots in a row. */
  predicate IsLocalPart(l: string) {
    && |l| >= 1
    && l[0] != '.'
    && (forall i :: 0 <= i < |l| ==> IsLocalChar(l[i]))
    && IsLocalEnd(l[|l| - 1])
    && (forall i :: 0 <= i < |l| - 1 ==> !(l[i] == '.' && l[i + 1] == '.'))
  }

  /** A domain label: a letter or digit, then letters, digits and hyphens. */
  predicate IsLabel(d: string) {
    |d| >= 1 && IsAlnum(d[0]) && forall i :: 0 <= i < |d| ==> IsAlnum(d[i]) || d[i] == '-'
  }

  /** The top-level domain: two or more letters. */
  predicate IsTopLevel(d: string) {
    |d| >= 2 && forall i :: 0 <= i < |d| ==> IsAsciiLetter(d[i])
  }

  /** One or more labels, each followed by a dot, then the top-level domain. */
  predicate IsDomain(d: string)
    decreases |d|
  {
    match Query.FirstIndex(d, (c: char) => c == '.')
    case None => false
    case Some(i) => IsLabel(d[..i]) && (IsTopLevel(d[i + 1..]) || IsDomain(d[i + 1..]))
  }

  /** The email shape `z.string().email()` accepts (zod 3's pattern, letters
      in either case): a local part, one `@`, a domain. */
  predicate IsEmail(s: string) {
    match Query.FirstIndex(s, (c: char) => c == '@')
    case None => false
    case Some(i) => IsLocalPart(s[..i]) && IsDomain(s[i + 1..])
  }

  /** Every well-formed address has an `@` with a non-empty local part
      before it and a dot in the domain after it. */
  lemma EmailHasAtAndDot(s: string)
    requires IsEmail(s)
    ensures exists i, j :: 0 < i < j < |s| && s[i] == '@' && s[j] == '.'
  {
    var i := Query.FirstIndex(s, (c: char) => c == '@').value;
    var d := s[i + 1..];
    var k := Query.FirstIndex(d, (c: char) => c == '.').value;
    assert d[k] == s[i + 1 + k];
  }

  /** What `loginSchema` leaves of a body. */
  datatype Credentials = Credentials(email: string, password: string)

  const MinPasswordLength := 6

  /** The UTF-16 code units of one character: two for a character beyond
      the Basic Multilingual Plane, which JavaScript stores as a surrogate
      pair. */
  function CodeUnits(c: char): nat {
    if c as int > 0xFFFF then 2 else 1
  }

  /** A string's JavaScript `.length`: its count of UTF-16 code units. */
  function Utf16Length(s: string): (n: nat)
    ensures |s| <= n <= 2 * |s|
  {
    if s == [] then 0 else CodeUnits(s[0]) + Utf16Length(s[1..])
  }

  /** The code units of a concatenation are those of its parts. */
  lemma {:induction false} Utf16LengthConcat(a: string, b: string)
    ensures Utf16Length(a + b) == Utf16Length(a) + Utf16Length(b)
  {
    if a == [] {
      assert a + b == b;
    } else {
      assert (a + b)[1..] == a[1..] + b;
      Utf16LengthConcat(a[1..], b);
    }
  }

  /** Within the Basic Multilingual Plane, `.length` counts characters. */
  lemma {:induction false} Utf16LengthOfBmp(s: string)
    requires forall i :: 0 <= i < |s| ==> s[i] as int <= 0xFFFF
    ensures Utf16Length(s) == |s|
  {
    if s != [] {
      Utf16LengthOfBmp(s[1..]);
    }
  }

  /** Three emoji make a JavaScript string of length six. */
  lemma ThreeEmojiAreSixCodeUnits()
    ensures Utf16Length("\U{1F600}\U{1F600}\U{1F600}") == 6
  {
    var s := "\U{1F600}\U{1F600}\U{1F600}";
    assert s[1..][1..][1..] == [];
  }

  function LoginIssues(raw: Raw): (r: seq<Issue>) {
    (if !TextGiven(raw, "email") then FieldIssues(raw, "email", RequiredText)
     else if !IsEmail(raw["email"].text) then [Issue("email", InvalidEmail)]
     else [])
    + (if !TextGiven(raw, "password") then FieldIssues(raw, "password", RequiredText)
       else if Utf16Length(raw["password"].text) < MinPasswordLength then [Issue("password", TooShort)]
       else [])
  }

  /** `loginSchema.parse`: a well-formed email and a password of at least
      six UTF-16 code units, as `.min(6)` measures a JavaScript string. */
  function ParseLogin(raw: Raw): (r: Result<Credentials, seq<Issue>>)
    ensures r.Ok? <==>
      && TextGiven(raw, "email") && IsEmail(raw["email"].text)
      && TextGiven(raw, "password") && Utf16Length(raw["password"].text) >= MinPasswordLength
    ensures r.Err? ==> r.error == LoginIssues(raw) && r.error != []
    ensures r.Ok? ==> r.value == Credentials(raw["email"].text, raw["password"].text)
  {
    var issues := LoginIssues(raw);
    if issues != [] then Err(issues)
    else Ok(Credentials(raw["email"].text, raw["password"].text))
  }

  function RegisterIssues(raw: Raw): seq<Issue> {
    var base := InsertUserIssues(raw) + FieldIssues(raw, "confirmPassword", RequiredText);
    if base != [] then base
    else if raw["password"].text != raw["confirmPassword"].text then [Issue("confirmPassword", Mismatch)]
    else []
  }

  /** `registerSchema`: the user insert schema plus a required
      `confirmPassword` string, refined by password == confirmPassword. The
      refinement runs only on an input the object schema accepted, and
      reports its failure on the `confirmPassword` path. */
  function CheckRegistration(raw: Raw): (r: seq<Issue>)
    ensures r == [] <==>
      && ParseInsertUser(raw).Ok? && TextGiven(raw, "confirmPassword")
      && raw["password"].text == raw["confirmPassword"].text
    ensures ParseInsertUser(raw).Ok? && TextGiven(raw, "confirmPassword")
            && raw["password"].text != raw["confirmPassword"].text
            ==> r == [Issue("confirmPassword", Mismatch)] && IssueMessage(r[0].code) == Some(PasswordsDontMatch)
    ensures forall i :: 0 <= i < |r| ==> r[i].code != Mismatch ==> ParseInsertUser(raw).Err? || !TextGiven(raw, "confirmPassword")
  {
    RegisterIssues(raw)
  }

  // ---------------------------------------------------------------------
  // products
  // ---------------------------------------------------------------------

  /** A row of `products`; `sku` and `ean` carry unique constraints, and the
      `type` column is the field `productType`. */
  datatype Product = Product(
    id: string,
    name: string, brand: string, netVolume: string, vintage: Option<string>,
    productType: string, sugarContent: Option<string>, appellation: Option<string>,
    sku: string, alcohol: Option<string>, country: string, ean: Option<string>,
    imageUrl: Option<string>, qrCode: Option<string>,
    createdAt: Timestamp, updatedAt: Timestamp)

  /** What `insertProductSchema` leaves of a body: every column except id,
      qrCode and the two timestamps. */
  datatype NewProduct = NewProduct(
    name: string, brand: string, netVolume: string, vintage: Option<string>,
    productType: string, sugarContent: Option<string>, appellation: Option<string>,
    sku: string, alcohol: Option<string>, country: string, ean: Option<string>,
    imageUrl: Option<string>)

  function InsertProductIssues(raw: Raw): seq<Issue> {
    FieldIssues(raw, "name", RequiredText)
    + FieldIssues(raw, "brand", RequiredText)
    + FieldIssues(raw, "netVolume", RequiredText)
    + FieldIssues(raw, "vintage", OptionalText)
    + FieldIssues(raw, "type", RequiredText)
    + FieldIssues(raw, "sugarContent", OptionalText)
    + FieldIssues(raw, "appellation", OptionalText)
    + FieldIssues(raw, "sku", RequiredText)
    + FieldIssues(raw, "alcohol", OptionalText)
    + FieldIssues(raw, "country", RequiredText)
    + FieldIssues(raw, "ean", OptionalText)
    + FieldIssues(raw, "imageUrl", OptionalText)
  }

  /** `insertProductSchema.parse`: name, brand, netVolume, type, sku and
      country are required strings; vintage, sugarContent, appellation,
      alcohol, ean and imageUrl may be absent, null or a string. */
  function ParseInsertProduct(raw: Raw): (r: Result<NewProduct, seq<Issue>>)
    ensures r.Ok? <==>
      && TextGiven(raw, "name") && TextGiven(raw, "brand") && TextGiven(raw, "netVolume")
      && TextGiven(raw, "type") && TextGiven(raw, "sku") && TextGiven(raw, "country")
      && FieldAccepts(raw, "vintage", OptionalText) && FieldAccepts(raw, "sugarContent", OptionalText)
      && FieldAccepts(raw, "appellation", OptionalText) && FieldAccepts(raw, "alcohol", OptionalText)
      && FieldAccepts(raw, "ean", OptionalText) && FieldAccepts(raw, "imageUrl", OptionalText)
    ensures r.Err? ==> r.error == InsertProductIssues(raw) && r.error != []
    ensures r.Ok? ==>
      && r.value.name == raw["name"].text && r.value.brand == raw["brand"].text
      && r.value.netVolume == raw["netVolume"].text && r.value.productType == raw["type"].text
      && r.value.sku == raw["sku"].text && r.value.country == raw["country"].text
      && r.value.vintage == OptText(raw, "vintage") && r.value.sugarContent == OptText(raw, "sugarContent")
      && r.value.appellation == OptText(raw, "appellation") && r.value.alcohol == OptText(raw, "alcohol")
      && r.value.ean == OptText(raw, "ean") && r.value.imageUrl == OptText(raw, "imageUrl")
  {
    var issues := InsertProductIssues(raw);
    if issues != [] then Err(issues)
    else
      Ok(NewProduct(
        raw["name"].text, raw["brand"].text, raw["netVolume"].text, OptText(raw, "vintage"),
        raw["type"].text, OptText(raw, "sugarContent"), OptText(raw, "appellation"),
        raw["sku"].text, OptText(raw, "alcohol"), raw["country"].text, OptText(raw, "ean"),
        OptText(raw, "imageUrl")))
  }

  /** A product as the body of an insert, absent values as null. */
  function ProductRaw(p: NewProduct): Raw {
    map[
      "name" := JString(p.name), "brand" := JString(p.brand),
      "netVolume" := JString(p.netVolume), "vintage" := OptJson(p.vintage),
      "type" := JString(p.productType), "sugarContent" := OptJson(p.sugarContent),
      "appellation" := OptJson(p.appellation), "sku" := JString(p.sku),
      "alcohol" := OptJson(p.alcohol), "country" := JString(p.country),
      "ean" := OptJson(p.ean), "imageUrl" := OptJson(p.imageUrl)]
  }

  /** The keys of a product body. */
  const ProductKeys: set<string> := {
    "name", "brand", "netVolume", "vintage", "type", "sugarContent",
    "appellation", "sku", "alcohol", "country", "ean", "imageUrl"}

  /** The columns a duplicate deletes are not insert keys. */
  lemma RowOnlyKeysAreNotProductKeys()
    ensures ProductKeys !! {"id", "qrCode", "createdAt", "updatedAt"}
  {
  }

  lemma ProductRawKeys(p: NewProduct)
    ensures ProductRaw(p).Keys == ProductKeys
  {
  }

  lemma ProductRawRequired(p: NewProduct)
    ensures var raw := ProductRaw(p);
      && raw["name"] == JString(p.name) && raw["brand"] == JString(p.brand)
      && raw["netVolume"] == JString(p.netVolume) && raw["type"] == JString(p.productType)
      && raw["sku"] == JString(p.sku) && raw["country"] == JString(p.country)
  {
  }

  lemma ProductRawOptional(p: NewProduct)
    ensures var raw := ProductRaw(p);
      && raw["vintage"] == OptJson(p.vintage) && raw["sugarContent"] == OptJson(p.sugarContent)
      && raw["appellation"] == OptJson(p.appellation) && raw["alcohol"] == OptJson(p.alcohol)
      && raw["ean"] == OptJson(p.ean) && raw["imageUrl"] == OptJson(p.imageUrl)
  {
  }

  /** Two product bodies with the same keys that agree on every column are equal. */
  lemma ProductBodiesAgree(a: Raw, b: Raw)
    requires a.Keys == ProductKeys && b.Keys == ProductKeys
    requires a["name"] == b["name"] && a["brand"] == b["brand"] && a["netVolume"] == b["netVolume"]
    requires a["type"] == b["type"] && a["sku"] == b["sku"] && a["country"] == b["country"]
    requires a["vintage"] == b["vintage"] && a["sugarContent"] == b["sugarContent"]
    requires a["appellation"] == b["appellation"] && a["alcohol"] == b["alcohol"]
    requires a["ean"] == b["ean"] && a["imageUrl"] == b["imageUrl"]
    ensures a == b
  {
    forall k | k in ProductKeys ensures a[k] == b[k] {
    }
  }

  /** The insert schema gives back every product it is handed as a body. */
  lemma ParseProductRaw(p: NewProduct)
    ensures ParseInsertProduct(ProductRaw(p)) == Ok(p)
  {
    var raw := ProductRaw(p);
    ProductRawKeys(p);
    ProductRawRequired(p);
    ProductRawOptional(p);
    assert InsertProductIssues(raw) == [];
  }

  /** The value an update leaves in a column: the supplied one, or the
      current one when the body does not mention the column. */
  function Pick<T>(given: Option<T>, current: T): (r: T)
    ensures given.None? ==> r == current
    ensures given.Some? ==> r == given.value
  {
    if given.Some? then given.value else current
  }

  /** Partial<InsertProduct>, the body of an update: None leaves a column
      alone; Some(None) sets a nullable column to null. */
  datatype ProductPatch = ProductPatch(
    name: Option<string>, brand: Option<string>, netVolume: Option<string>,
    vintage: Option<Option<string>>, productType: Option<string>,
    sugarContent: Option<Option<string>>, appellation: Option<Option<string>>,
    sku: Option<string>, alcohol: Option<Option<string>>, country: Option<string>,
    ean: Option<Option<string>>, imageUrl: Option<Option<string>>)

  // ---------------------------------------------------------------------
  // ingredients
  // ---------------------------------------------------------------------

  /** A row of `ingredients`; the table has no unique constraint besides its id. */
  datatype Ingredient = Ingredient(
    id: string, name: string, category: string, eNumber: Option<string>,
    allergens: Option<seq<string>>, description: Option<string>,
    createdAt: Timestamp, updatedAt: Timestamp)

  datatype NewIngredient = NewIngredient(
    name: string, category: string, eNumber: Option<string>,
    allergens: Option<seq<string>>, description: Option<string>)

  function InsertIngredientIssues(raw: Raw): seq<Issue> {
    FieldIssues(raw, "name", RequiredText)
    + FieldIssues(raw, "category", RequiredText)
    + FieldIssues(raw, "eNumber", OptionalText)
    + FieldIssues(raw, "allergens", OptionalTextList)
    + FieldIssues(raw, "description", OptionalText)
  }

  /** `insertIngredientSchema.parse`: name and category are required
      strings; eNumber and description may be absent, null or a string, and
      allergens absent, null or a list of strings. */
  function ParseInsertIngredient(raw: Raw): (r: Result<NewIngredient, seq<Issue>>)
    ensures r.Ok? <==>
      && TextGiven(raw, "name") && TextGiven(raw, "category")
      && FieldAccepts(raw, "eNumber", OptionalText)
      && FieldAccepts(raw, "allergens", OptionalTextList)
      && FieldAccepts(raw, "description", OptionalText)
    ensures r.Err? ==> r.error == InsertIngredientIssues(raw) && r.error != []
    ensures r.Ok? ==>
      && r.value.name == raw["name"].text && r.value.category == raw["category"].text
      && r.value.eNumber == OptText(raw, "eNumber")
      && r.value.allergens == OptTextList(raw, "allergens")
      && r.value.description == OptText(raw, "description")
  {
    var issues := InsertIngredientIssues(raw);
    if issues != [] then Err(issues)
    else
      Ok(NewIngredient(
        raw["name"].text, raw["category"].text, OptText(raw, "eNumber"),
        OptTextList(raw, "allergens"), OptText(raw, "description")))
  }

  function IngredientRaw(g: NewIngredient): Raw {
    map[
      "name" := JString(g.name), "category" := JString(g.category),
      "eNumber" := OptJson(g.eNumber), "allergens" := ListJson(g.allergens),
      "description" := OptJson(g.description)]
  }

  /** In the list `["a", 1, 2]` the elements at positions 1 and 2 are
      not strings. */
  lemma TwoNumbersInAList()
    ensures ElementIssues("allergens", [JString("a"), JOther, JOther]) ==
      [ElementIssue("allergens", 1, InvalidType), ElementIssue("allergens", 2, InvalidType)]
  {
    var items := [JString("a"), JOther, JOther];
    assert BadElements(items[..1]) == [];
    assert BadElements(items[..2]) == [1];
    assert BadElements(items) == [1, 2];
  }

  /** A body whose allergen list holds two numbers is refused with one
      wrong-type issue per number, each at its position in the list. */
  lemma AllergenElementsReportedOneByOne()
    ensures
      var raw := map["name" := JString("x"), "category" := JString("y"),
                     "allergens" := JArray([JString("a"), JOther, JOther])];
      ParseInsertIngredient(raw) ==
        Err([ElementIssue("allergens", 1, InvalidType), ElementIssue("allergens", 2, InvalidType)])
  {
    TwoNumbersInAList();
    var raw := map["name" := JString("x"), "category" := JString("y"),
                   "allergens" := JArray([JString("a"), JOther, JOther])];
    assert FieldIssues(raw, "name", RequiredText) == [];
    assert FieldIssues(raw, "category", RequiredText) == [];
    assert "eNumber" !in raw && "description" !in raw;
    assert raw["allergens"].items == [JString("a"), JOther, JOther];
    assert InsertIngredientIssues(raw) == FieldIssues(raw, "allergens", OptionalTextList);
  }

  /** The insert schema gives back every ingredient it is handed as a body,
      its allergen list included. */
  lemma ParseIngredientRaw(g: NewIngredient)
    ensures ParseInsertIngredient(IngredientRaw(g)) == Ok(g)
  {
    var raw := IngredientRaw(g);
    assert TextGiven(raw, "name") && TextGiven(raw, "category");
    if g.allergens.Some? {
      assert OptTextList(raw, "allergens").value == g.allergens.value;
    }
  }

  // ---------------------------------------------------------------------
  // Arrays of bodies
  // ---------------------------------------------------------------------

  /** `records.map(schema.parse)`: every record parsed, in order, or the
      issues of the first record that fails (parse throws there). */
  function ParseEach<T>(raws: seq<Raw>, parse: Raw -> Result<T, seq<Issue>>): (r: Result<seq<T>, seq<Issue>>)
    ensures r.Ok? <==> forall k :: 0 <= k < |raws| ==> parse(raws[k]).Ok?
    ensures r.Ok? ==> |r.value| == |raws|
    ensures r.Ok? ==> forall k :: 0 <= k < |raws| ==> parse(raws[k]) == Ok(r.value[k])
    ensures r.Err? ==>
      exists k :: 0 <= k < |raws| && parse(raws[k]) == Err(r.error) &&
        (forall j :: 0 <= j < k ==> parse(raws[j]).Ok?)
  {
    if raws == [] then Ok([])
    else
      match parse(raws[0])
      case Err(issues) => Err(issues)
      case Ok(first) =>
        assert forall k :: 1 <= k < |raws| ==> raws[k] == raws[1..][k - 1];
        match ParseEach(raws[1..], parse)
        case Err(issues) => Err(issues)
        case Ok(rest) => Ok([first] + rest)
  }

  /** Partial<InsertIngredient>, the body of an update. */
  datatype IngredientPatch = IngredientPatch(
    name: Option<string>, category: Option<string>, eNumber: Option<Option<string>>,
    allergens: Option<Option<seq<string>>>, description: Option<Option<string>>)
}
