# Wine catalogue service layer, modelled in Dafny

The system is the back end of a catalogue of wine products and their
ingredients, with user accounts. This project models its service layer:

- `ProductService` lists, searches, reads, creates, updates, deletes,
  duplicates and bulk-creates products. Every product gets a QR code, and
  a product's SKU must be unique.
- `IngredientService` does the same for ingredients. It also lists the
  ingredients of one category and the distinct categories in use. Only
  create checks that a (name, category) pair is new.
- `AuthService` registers users, logs them in and fetches one by id.
  Responses never carry the password hash.
- The shared schema defines the table rows, the validation schemas that
  guard every insert, and the login and registration checks.

Modules:

- `Wrappers` holds `Option` and `Result`.
- `Query` models what the services ask of PostgreSQL:
  - the `LIKE`/`ILIKE` matcher;
  - filtering, first-match lookup and `SELECT DISTINCT`;
  - the `LIMIT`/`OFFSET` window and the page count of a listing.
- `Schema` models the rows, the insert, login and registration schemas,
  and the update bodies (`Partial<Insert…>`):
  - a request body is a map from keys to JSON values;
  - parsing gives back the typed record, or the issues in schema order
    (a list field reports each element that is not a string);
  - keys a schema does not know are dropped.
- `Products`, `Ingredients` and `Auth` each hold the service class. The
  class keeps its table as a `seq` field, and its invariant is the table's
  unique constraints. Methods do the writes; the read-only queries are
  functions of the table.

Several things the services take from outside become parameters or
constructor arguments:

- the fresh ids the database generates;
- the clock, and `Date.now()`;
- the bcrypt salt;
- the QR generator;
- the password hasher and comparer;
- the JWT signer.

Where the hasher matters, the lemmas assume `Auth.SoundHasher`: a stored
hash accepts exactly the password it was made from.

## Model

| member | source | states |
|---|---|---|
| Query.Lower | server/services/productService.ts:13 | ILIKE's case folding keeps the length and folds each character by itself (ASCII letters only) |
| Query.LowerConcat | server/services/productService.ts:13 | folding the case of a concatenation folds each part |
| Query.Like | server/services/productService.ts:13 | the `LIKE` matcher (`%` any run, `_` any one character, backslash escapes); a pattern without `%`, `_` or backslash matches exactly the text equal to it |
| Query.ILike | server/services/productService.ts:13 | `ILIKE` is `LIKE` after case folding; a pattern without `%`, `_` or backslash matches exactly the texts equal to it ignoring case |
| Query.IsSearching | server/services/productService.ts:11 | `if (search)`: an absent or empty term applies no filter |
| Query.SearchPattern | server/services/productService.ts:13 | `%term%` is the term between two `%` wildcards |
| Query.LikeAnyStringAlone | server/services/productService.ts:13 | the pattern `%` matches every text |
| Query.LikeLeadingAnyString | server/services/productService.ts:13 | a leading `%` matches exactly when the rest of the pattern matches some suffix of the text |
| Query.LikeLiteralThenAnyString | server/services/productService.ts:13 | a literal followed by `%` matches exactly the texts it is a prefix of |
| Query.LikeSearchIsContains | server/services/productService.ts:13 | for a term without `%`, `_` or backslash, `LIKE '%term%'` is substring search |
| Query.ILikeSearchIsContainsIgnoringCase | server/services/productService.ts:13 | for such a term, `ILIKE '%term%'` is case-insensitive substring search |
| Query.Filter | server/services/productService.ts:11-14 | a WHERE keeps a row exactly when the condition holds, each as often as the table holds it, and never adds rows |
| Query.FirstIndex | server/services/productService.ts:41 | `WHERE … LIMIT 1` finds the first matching row; it finds none exactly when no row matches |
| Query.Distinct | server/services/ingredientService.ts:126-128 | `SELECT DISTINCT` yields each value of the input once and no other value |
| Query.Window | server/services/productService.ts:18 | `LIMIT l OFFSET o` yields the `min(l, n - o)` rows from position o, in order |
| Query.PageCount | server/services/productService.ts:35 | `Math.ceil(total / limit)` is the least page count that holds every matching row; a limit of 0 gives no number (JSON null) |
| Query.CeilDiv | server/services/productService.ts:35 | the rounded-up quotient is the least n with `total <= n * limit` |
| Query.PageOffset | server/services/productService.ts:17 | `(page - 1) * limit` is non-negative from page 1 on for a non-negative limit, and negative for page 0 or below with a positive limit |
| Query.Paginate | server/services/productService.ts:17-35 | an offset or limit outside the 64-bit `bigint` range is refused, then a negative offset, then a negative limit; otherwise the page holds the rows of the window, and the pagination holds the page, the limit, the matching count and the page count |
| Query.PagesUpToIsPrefix | server/services/productService.ts:17-18 | pages 1 to n, concatenated, are the first `n * limit` rows of the listing |
| Query.PagesCoverListing | server/services/productService.ts:17-35 | the pages up to the reported page count, concatenated, are the whole listing; every later page is empty |
| Query.AllPagesAreTheListing | server/services/productService.ts:17-18 | once n pages can hold every row, pages 1 to n are the whole listing |
| Query.PastLastPageIsEmpty | server/services/productService.ts:17-35 | a page beyond the reported page count is empty |
| Query.PageSizes | server/services/productService.ts:17-35 | every page before the last is full, and the last holds the remainder |
| Query.TwentyFiveRowsInPagesOfTen | server/services/productService.ts:17-35 | 25 rows in pages of 10 give pages of 10, 10 and 5, an empty fourth page, and a page count of 3 |
| Schema.FieldIssues | shared/schema.ts:63-68 | a field yields no issue exactly when its schema accepts it; otherwise an absent key yields one "required" issue, a list holding non-strings yields one wrong-type issue per such element at its position, and any other value one wrong-type issue on the key |
| Schema.ElementIssues | shared/schema.ts:42 | one wrong-type issue for each element of a list that is not a string, at that element's position, in increasing order, and none exactly when every element is a string |
| Schema.BadElements | shared/schema.ts:42 | the positions listed lie inside the list |
| Schema.BadElementsSound | shared/schema.ts:42 | every listed position holds an element that is not a string |
| Schema.BadElementsComplete | shared/schema.ts:42 | every element that is not a string is listed |
| Schema.BadElementsIncreasing | shared/schema.ts:42 | the positions are listed in increasing order |
| Schema.OptText | shared/schema.ts:63-68 | an optional text field yields its text when a string is given and null otherwise |
| Schema.OptTextList | shared/schema.ts:70-74 | an optional list field yields the list of strings when one is given |
| Schema.ParseInsertUser | shared/schema.ts:56-61 | the user insert schema accepts exactly the bodies whose email, password and name are strings, and yields those three; role, id and timestamps are dropped |
| Schema.InsertUserIgnoresOtherKeys | shared/schema.ts:56-61 | a key outside email, password and name (role, confirmPassword) never changes what the schema yields |
| Schema.IsEmail | shared/schema.ts:77 | the shape `z.string().email()` accepts: a local part of letters, digits and `_'+-.` that neither starts with a dot nor holds two in a row, one `@`, then dot-separated labels ending in a top-level domain of two or more letters |
| Schema.EmailHasAtAndDot | shared/schema.ts:77 | every address `z.string().email()` accepts has an `@` after a non-empty local part, and a dot after the `@` |
| Schema.Utf16Length | shared/schema.ts:78 | a string's JavaScript length, which `.min(6)` measures, counts UTF-16 code units: at least one and at most two per character |
| Schema.Utf16LengthConcat | shared/schema.ts:78 | the JavaScript length of a concatenation is the sum of the lengths of its parts |
| Schema.Utf16LengthOfBmp | shared/schema.ts:78 | for a string within the Basic Multilingual Plane, the JavaScript length is its number of characters |
| Schema.ThreeEmojiAreSixCodeUnits | shared/schema.ts:78 | three emoji make a JavaScript string of length six, so they meet the password minimum |
| Schema.ParseLogin | shared/schema.ts:76-79 | the login schema accepts exactly a well-formed email and a password of at least six UTF-16 code units; otherwise it reports its issues |
| Schema.CheckRegistration | shared/schema.ts:81-86 | the registration schema passes exactly when the user fields and confirmPassword are strings and the two passwords are equal; a mismatch alone is reported once, on confirmPassword |
| Schema.ParseInsertProduct | shared/schema.ts:17-34 | the product insert schema accepts exactly the bodies whose six required columns are strings and whose six nullable columns are absent, null or strings; each field maps to its column |
| Schema.ParseProductRaw | shared/schema.ts:63-68 | a product given as a body parses back to itself |
| Schema.ParseInsertIngredient | shared/schema.ts:37-46 | the ingredient insert schema accepts exactly a string name and category, an optional text eNumber and description, and an optional list of strings as allergens |
| Schema.TwoNumbersInAList | shared/schema.ts:42 | in `["a", 1, 2]` the issues are at positions 1 and 2 |
| Schema.AllergenElementsReportedOneByOne | shared/schema.ts:37-46 | a body with allergens `["a", 1, 2]` is refused with two wrong-type issues, at allergens positions 1 and 2 |
| Schema.ParseIngredientRaw | shared/schema.ts:70-74 | an ingredient given as a body parses back to itself |
| Schema.ParseEach | server/services/productService.ts:132 | mapping a schema over records yields every record parsed, in order, or the issues of the first record that fails |
| Products.AppendKeepsConstraints | shared/schema.ts:26-29 | appending a row keeps the sku and ean unique constraints exactly when its sku is unused and its ean is null or unused |
| Products.MatchesSearch | server/services/productService.ts:13 | a product matches when its name, brand or sku is `ILIKE '%term%'` |
| Products.SearchResults | server/services/productService.ts:9-15 | with a non-empty term, the listing selects exactly the products whose name, brand or sku matches `ILIKE '%term%'`; without one, the whole table |
| Products.SearchIsCaseInsensitiveSubstring | server/services/productService.ts:11-14 | for a literal term, a product is found exactly when the term occurs, ignoring case, in its name, brand or sku |
| Products.GetAllProducts | server/services/productService.ts:8-38 | the page of matching products from offset `(page-1)*limit`, with their count and page count; an offset or limit beyond `bigint`, or a negative one, is refused; every listed product is in the table and matches |
| Products.IndexOfId | server/services/productService.ts:41 | the position of the row with that id; no position exactly when no row has that id |
| Products.GetProductById | server/services/productService.ts:40-48 | the product with that id when one exists, otherwise "Product not found" |
| Products.CopyOf | server/services/productService.ts:117-121 | the copy is named "<name> (Copy)", its sku is "<sku>-copy-<milliseconds>", and every other column is the source's |
| Products.DecimalString | server/services/productService.ts:119 | the milliseconds are rendered as decimal digits that spell their value, with no leading zero |
| Products.QrPayload | server/services/productService.ts:65 | the QR text is "Product: ", the name, a newline, "Brand: ", the brand, a newline, "SKU: " and the sku |
| Products.NewRow | server/services/productService.ts:64-74 | the inserted row holds every validated column, the generated QR code, the fresh id and the insert time |
| Products.RowRaw | server/services/productService.ts:117-121 | `...originalProduct` spreads all sixteen columns of the row, null columns as null |
| Products.DuplicateBody | server/services/productService.ts:117-126 | the spread row with sku and name overridden, then id, createdAt, updatedAt and qrCode deleted |
| Products.DuplicateBodyKeys | server/services/productService.ts:117-126 | the spread row less id, createdAt, updatedAt and qrCode holds exactly the twelve insert columns |
| Products.DuplicateBodyRenamed | server/services/productService.ts:117-121 | the spread row holds the new sku and the new name |
| Products.DuplicateBodyKeeps | server/services/productService.ts:117-126 | every other insert column of the spread body is the source row's value |
| Products.DuplicateBodyIsCopyBody | server/services/productService.ts:117-126 | the whole row spread, with the new sku and name, less id, createdAt, updatedAt and qrCode, is exactly the copy's insert body |
| Products.DuplicateBodyParses | server/services/productService.ts:117-128 | the body `duplicateProduct` builds passes the insert schema and yields the copy |
| Products.DuplicateOfProductWithEanClashes | server/services/productService.ts:117-128 | the copy of a product that has an ean carries that same ean, so the unique constraint refuses it |
| Products.ChecksSku | server/services/productService.ts:83 | an update checks the sku only when one is supplied, is non-empty and differs from the current sku |
| Products.ApplyPatch | server/services/productService.ts:95-102 | an update sets exactly the supplied columns (null included) and updatedAt; id, qrCode and createdAt never change |
| Products.EmptyPatchTouchesOnlyUpdatedAt | server/services/productService.ts:83-102 | an update that supplies nothing only moves updatedAt and performs no sku check |
| Products.RemoveRowOfId | server/services/productService.ts:110 | deleting the row with an id leaves every other row and no row with that id |
| Products.BatchRows | server/services/productService.ts:135-141 | a bulk insert stores one row per record, in order, each with the QR code of its own payload |
| Products.ProductService.constructor | server/services/productService.ts:7 | the service starts with an empty table that satisfies the constraints |
| Products.ProductService.CreateProduct | server/services/productService.ts:50-77 | it refuses an invalid body with its issues, then a used sku with "Product with this SKU already exists", then a used ean through the unique constraint; otherwise it appends exactly the validated row with its QR code; the table is unchanged on every error; the constraints hold |
| Products.ProductService.UpdateProduct | server/services/productService.ts:79-105 | "Product not found" for an unknown id; a supplied, non-empty, changed sku that is in use is refused; a patched row that breaks a unique constraint is refused with a unique violation on a column it breaks; otherwise only that row is replaced by the patched row |
| Products.ProductService.DeleteProduct | server/services/productService.ts:107-112 | "Product not found" for an unknown id; otherwise exactly that row is removed and the message is "Product deleted successfully" |
| Products.ProductService.DuplicateRequest | server/services/productService.ts:117-126 | the body built for a duplicate parses to the copy |
| Products.ProductService.DuplicateProduct | server/services/productService.ts:114-129 | "Product not found" for an unknown id; a copy whose sku is in use is refused with the sku message; a source with an ean is always refused by the ean constraint; otherwise the copy is appended |
| Products.ProductService.BulkCreateProducts | server/services/productService.ts:131-145 | it refuses with the issues of the first invalid record, then an empty batch, then a batch that breaks a unique constraint against the table or within itself, with a unique violation on a column it breaks; otherwise it appends all rows at once; on any error nothing is stored |
| Ingredients.AppendKeepsPairsDistinct | server/services/ingredientService.ts:51-62 | appending an ingredient whose (name, category) pair is new keeps all pairs distinct |
| Ingredients.MatchesSearch | server/services/ingredientService.ts:11 | an ingredient matches when its name or category, or its eNumber when not null, is `ILIKE '%term%'` |
| Ingredients.SearchResults | server/services/ingredientService.ts:9-13 | with a non-empty term, the listing selects exactly the ingredients whose name, category or non-null eNumber matches `ILIKE '%term%'` |
| Ingredients.SearchIsCaseInsensitiveSubstring | server/services/ingredientService.ts:9-13 | for a literal term, an ingredient is found exactly when the term occurs, ignoring case, in its name, its category or its eNumber; a null eNumber never matches |
| Ingredients.GetAllIngredients | server/services/ingredientService.ts:6-36 | the page of matching ingredients from offset `(page-1)*limit`, with their count and page count; an offset or limit beyond `bigint`, or a negative one, is refused |
| Ingredients.IndexOfId | server/services/ingredientService.ts:39 | the position of the row with that id; no position exactly when no row has that id |
| Ingredients.GetIngredientById | server/services/ingredientService.ts:38-46 | the ingredient with that id when one exists, otherwise "Ingredient not found" |
| Ingredients.GetIngredientsByCategory | server/services/ingredientService.ts:116-123 | exactly the ingredients of that category (exact match), each as often as the table holds it |
| Ingredients.Categories | server/services/ingredientService.ts:130 | the category column of the table, row by row |
| Ingredients.GetAllCategories | server/services/ingredientService.ts:125-131 | every category in use, each once, and no other |
| Ingredients.CategoriesAreNonEmpty | server/services/ingredientService.ts:116-131 | a category is listed exactly when asking for it finds an ingredient |
| Ingredients.CopyOf | server/services/ingredientService.ts:97-100 | the copy is named "<name> (Copy)", and every other column is the source's |
| Ingredients.RowRaw | server/services/ingredientService.ts:97-100 | `...originalIngredient` spreads all eight columns of the row, null columns as null |
| Ingredients.DuplicateBody | server/services/ingredientService.ts:97-104 | the spread row with name overridden, then id, createdAt and updatedAt deleted |
| Ingredients.DuplicateBodyIsCopyBody | server/services/ingredientService.ts:97-104 | the whole row spread, with the new name, less id, createdAt and updatedAt, is exactly the copy's insert body |
| Ingredients.DuplicateBodyParses | server/services/ingredientService.ts:97-106 | the body `duplicateIngredient` builds passes the insert schema and yields the copy |
| Ingredients.ApplyPatch | server/services/ingredientService.ts:75-82 | an update sets exactly the supplied columns and updatedAt; id and createdAt never change |
| Ingredients.RemoveRowOfId | server/services/ingredientService.ts:90 | deleting the row with an id leaves every other row and no row with that id |
| Ingredients.UpdateMayRepeatAPair | server/services/ingredientService.ts:72-85 | an update may give an ingredient the name and category of another, since only create checks the pair |
| Ingredients.BulkMayRepeatAPair | server/services/ingredientService.ts:109-114 | a bulk insert may store the same name and category twice |
| Ingredients.NewRow | server/services/ingredientService.ts:64-67 | the inserted row holds every validated column, the fresh id and the insert time |
| Ingredients.BatchRows | server/services/ingredientService.ts:112 | a bulk insert stores one row per record, in order |
| Ingredients.IngredientService.constructor | server/services/ingredientService.ts:5 | the service starts with an empty table |
| Ingredients.IngredientService.CreateIngredient | server/services/ingredientService.ts:48-70 | it refuses an invalid body with its issues, then a (name, category) pair in use with "Ingredient with this name and category already exists"; otherwise it appends exactly the validated row; it keeps pairs distinct |
| Ingredients.IngredientService.UpdateIngredient | server/services/ingredientService.ts:72-85 | "Ingredient not found" for an unknown id; otherwise only that row is replaced by the patched row |
| Ingredients.IngredientService.DeleteIngredient | server/services/ingredientService.ts:87-92 | "Ingredient not found" for an unknown id; otherwise exactly that row is removed and the message is "Ingredient deleted successfully" |
| Ingredients.IngredientService.DuplicateRequest | server/services/ingredientService.ts:97-104 | the body built for a duplicate parses to the copy |
| Ingredients.IngredientService.DuplicateIngredient | server/services/ingredientService.ts:94-107 | "Ingredient not found" for an unknown id; the copy is refused while an ingredient with its name and category exists (a second duplicate while the first copy remains); otherwise it is appended |
| Ingredients.IngredientService.BulkCreateIngredients | server/services/ingredientService.ts:109-114 | it refuses with the issues of the first invalid record, then an empty batch; otherwise it appends all rows, with no pair check |
| Auth.WithoutPassword | server/services/authService.ts:71-78 | the public user carries every column of the row except the password |
| Auth.ClaimsOf | server/utils/jwt.ts:4-10 | the token payload is the user's id, email, name and role |
| Auth.SessionFor | server/services/authService.ts:71-83 | the response carries the user without password and a token signed over that user's claims |
| Auth.IndexOfEmail | server/services/authService.ts:55-59 | the position of the user with that email; no position exactly when the email is unused |
| Auth.IndexOfId | server/services/authService.ts:87-98 | the position of the user with that id; no position exactly when no user has it |
| Auth.IndexOfAppendedEmail | server/services/authService.ts:55-59 | after appending a user with a new email, looking that email up finds the new row |
| Auth.IndexOfAppendedId | server/services/authService.ts:87-98 | after appending a user with a new id, looking that id up finds the new row |
| Auth.Login | server/services/authService.ts:50-84 | an invalid body is refused with its issues; an unknown email and a password the hasher rejects both give "Invalid email or password"; otherwise a session for the user with that email whose stored hash accepts the password |
| Auth.GetUserById | server/services/authService.ts:86-105 | the user with that id without its password, or "User not found" |
| Auth.NewRow | server/services/authService.ts:24-33 | the stored user holds the validated email and name, the hashed password, the default role "user" and the creation time |
| Auth.LoginBody | server/services/authService.ts:50 | a login body holds exactly the email and the password |
| Auth.RegisterThenLogin | server/services/authService.ts:8-84 | after a registration, logging in with its email succeeds exactly when the candidate is the registered password, the email is well formed and the password has at least six UTF-16 code units; a malformed email or short password is refused by the login schema, a wrong password with "Invalid email or password" |
| Auth.RegisteredUserIsFound | server/services/authService.ts:86-105 | a registered user is found by id, without the password |
| Auth.AppendOneKeepsDistinct | shared/schema.ts:6-14 | appending a user with a new id and a new email keeps ids and emails unique |
| Auth.AuthService.constructor | server/services/authService.ts:7 | the service starts with no users |
| Auth.AuthService.Register | server/services/authService.ts:8-48 | an invalid body is refused with its issues, then a used email with "User already exists with this email"; otherwise it stores the hashed password with role "user", returns the session for the new user, its token signed at the server's clock and keeps ids and emails unique; the table is unchanged on every error |

## Left out

- The HTTP layer (controllers, routes, the authentication middleware) is not part of this model. Nor are the spreadsheet export and import utilities, or the `product_ingredients` table, which no service writes.
- bcrypt, the QR generator and JWT signing are parameters. Token expiry (`JWT_EXPIRES_IN`), the signing secret and `verifyToken` are left out.
- `Auth.SoundHasher` is a property the lemmas assume of the hasher; bcrypt's truncation of passwords beyond 72 bytes is not modelled.
- Query.Lower: ILIKE case folding is modelled for ASCII letters only. The database folds other letters as well, depending on its collation.
- Query.Like: a pattern that ends in a lone backslash is an error in the database; here it matches nothing. Every pattern the services build ends in `%`, so that case never arises.
- The services issue separate queries for a check and the write that follows (sku lookup then insert, email lookup then insert). Concurrent requests, and the races between them, are not modelled: each operation is one atomic step on the table.
- Products.ProductService.BulkCreateProducts: when a batch breaks both the sku and the ean constraint, the model states that a unique violation on one of them is reported, not which one. The database's choice depends on index order.
- Products.ProductService.UpdateProduct: the same holds when one update breaks both unique constraints.
- The count in the pagination is a string the driver returns for `count(*)`; the model gives it as a number.
- Update bodies are typed (`Partial<Insert…>`). The model does not cover a request body that also sends id, createdAt or qrCode, which the services do not strip. Nor does it cover an update body whose values have the wrong type. The driver (postgres-js, server/config/database.ts:1-15) sends a JSON number as an untyped parameter, and PostgreSQL stores its text form in a text column, so `{"name": 5}` sets the name to "5".
- An id that is not a UUID makes the database raise a syntax error rather than answer "not found"; the model treats every id as a lookup key.
- Query.Window: the row count and contents are those of `LIMIT l OFFSET o` as PostgreSQL applies them, on the assumption that every LIMIT reaches the database; the version of drizzle-orm, which decides whether a zero or negative limit is sent at all, is not recorded in the repository.
- Query.Paginate: assumes every LIMIT and OFFSET is sent to the database, so a negative offset and then a negative limit are refused. Depending on its version, drizzle-orm drops a negative LIMIT (the query then returns every row from the offset) or a zero one (every row rather than none); neither is modelled. An HTTP request never passes a limit of 0, since the controllers replace it with 10 (server/controllers/productController.ts:11); a negative limit does reach the service. The page and limit are JavaScript numbers: the offset `(page - 1) * limit` is exact only up to 2^53, and `parseInt` of a very long digit string gives a rounded or infinite value; here both are unbounded integers, and every value outside `bigint` is refused as one error whatever text the database driver would send for it.
- Products.GetAllProducts: inherits the LIMIT assumption of Query.Paginate.
- Ingredients.GetAllIngredients: inherits the LIMIT assumption of Query.Paginate.
- Schema.IsEmail: the email shape follows the pattern of the zod 3 validator for `z.string().email()`; the installed zod version is not recorded in the repository.
- Ingredients.GetAllCategories: `SELECT DISTINCT` does not fix the order of the categories. The model fixes one order, and its contract states only membership and absence of duplicates.
