/** The ingredient service (server/services/ingredientService.ts) over the
    `ingredients` table, the `ingredients` field of an IngredientService.
    The table's only storage-level constraint is its unique id; that a
    (name, category) pair occurs once is checked by create alone, so it is
    a property create keeps rather than an invariant of the table. */
module Ingredients {
  import opened Wrappers
  import opened Schema
  import opened Query

  const IngredientNotFound := "Ingredient not found"
  const IngredientAlreadyExists := "Ingredient with this name and category already exists"
  const IngredientDeleted := "Ingredient deleted successfully"

  datatype IngredientError =
    | Invalid(issues: seq<Issue>)     // the insert schema rejected the input
    | NotFound                        // "Ingredient not found"
    | DuplicateNameAndCategory        // "Ingredient with this name and category already exists"
    | EmptyBatch                      // an insert statement with no rows
    | QueryFailed(reason: QueryError) // the listing query was refused

  /** The message of an error the service raises itself; schema and query
      errors carry their library's message. */
  function Message(e: IngredientError): Option<string> {
    match e
    case NotFound => Some(IngredientNotFound)
    case DuplicateNameAndCategory => Some(IngredientAlreadyExists)
    case _ => None
  }

  datatype IngredientPage = IngredientPage(ingredients: seq<Ingredient>, pagination: PageInfo)

  // ---------------------------------------------------------------------
  // Table predicates
  // ---------------------------------------------------------------------

  predicate IdsDistinct(t: seq<Ingredient>) {
    forall i, j :: 0 <= i < j < |t| ==> t[i].id != t[j].id
  }

  predicate HasId(t: seq<Ingredient>, id: string) {
    exists i :: 0 <= i < |t| && t[i].id == id
  }

  predicate PairInUse(t: seq<Ingredient>, name: string, category: string) {
    exists i :: 0 <= i < |t| && t[i].name == name && t[i].category == category
  }

  /** No two ingredients share both name and category. */
  predicate PairsDistinct(t: seq<Ingredient>) {
    forall i, j :: 0 <= i < j < |t| ==> t[i].name != t[j].name || t[i].category != t[j].category
  }

  lemma AppendKeepsPairsDistinct(t: seq<Ingredient>, g: Ingredient)
    requires PairsDistinct(t) && !PairInUse(t, g.name, g.category)
    ensures PairsDistinct(t + [g])
  {
    var u := t + [g];
    forall i, j | 0 <= i < j < |u| ensures u[i].name != u[j].name || u[i].category != u[j].category {
      if j == |t| {
        assert u[i] == t[i];
      }
    }
  }

  // ---------------------------------------------------------------------
  // Queries
  // ---------------------------------------------------------------------

  /** `name ILIKE '%term%' OR category ILIKE '%term%' OR eNumber ILIKE
      '%term%'`; a null eNumber makes its disjunct null, which never
      selects a row on its own. */
  predicate MatchesSearch(g: Ingredient, term: string) {
    var pattern := SearchPattern(term);
    ILike(g.name, pattern) || ILike(g.category, pattern) ||
    (g.eNumber.Some? && ILike(g.eNumber.value, pattern))
  }

  function SearchResults(table: seq<Ingredient>, search: Option<string>): (r: seq<Ingredient>)
    ensures !IsSearching(search) ==> r == table
    ensures IsSearching(search) ==> forall g :: g in r <==> g in table && MatchesSearch(g, search.value)
    ensures forall g :: multiset(r)[g] <= multiset(table)[g]
  {
    if IsSearching(search) then Filter(table, (g: Ingredient) => MatchesSearch(g, search.value))
    else table
  }

  /** For a term with no `%`, `_` or backslash, an ingredient is found
      exactly when the term occurs, ignoring case, in its name, its
      category or its (non-null) E-number. */
  lemma SearchIsCaseInsensitiveSubstring(table: seq<Ingredient>, term: string, g: Ingredient)
    requires term != "" && IsLiteral(term)
    ensures g in SearchResults(table, Some(term)) <==>
      g in table &&
      (ContainsIgnoringCase(g.name, term) || ContainsIgnoringCase(g.category, term) ||
       (g.eNumber.Some? && ContainsIgnoringCase(g.eNumber.value, term)))
  {
    ILikeSearchIsContainsIgnoringCase(g.name, term);
    ILikeSearchIsContainsIgnoringCase(g.category, term);
    if g.eNumber.Some? {
      ILikeSearchIsContainsIgnoringCase(g.eNumber.value, term);
    }
  }

  /** `getAllIngredients(page, limit, search)`. */
  function GetAllIngredients(table: seq<Ingredient>, page: int, limit: int, search: Option<string>)
    : (r: Result<IngredientPage, IngredientError>)
    ensures r == Err(QueryFailed(OutOfRange)) <==> !Bindable(page, limit)
    ensures r == Err(QueryFailed(NegativeOffset)) <==> Bindable(page, limit) && PageOffset(page, limit) < 0
    ensures r == Err(QueryFailed(NegativeLimit)) <==> Bindable(page, limit) && PageOffset(page, limit) >= 0 && limit < 0
    ensures r.Ok? ==> 0 <= PageOffset(page, limit) <= MaxBigint && 0 <= limit <= MaxBigint
    ensures r.Ok? ==>
      var matching := SearchResults(table, search);
      && r.value.pagination == PageInfo(page, limit, |matching|, PageCount(|matching|, limit))
      && r.value.ingredients == Window(matching, PageOffset(page, limit), limit)
    ensures r.Ok? && IsSearching(search) ==>
      forall g :: g in r.value.ingredients ==> g in table && MatchesSearch(g, search.value)
  {
    var matching := SearchResults(table, search);
    match Paginate(matching, page, limit)
    case Err(e) => Err(QueryFailed(e))
    case Ok((rows, info)) => Ok(IngredientPage(rows, info))
  }

  function IndexOfId(table: seq<Ingredient>, id: string): (r: Option<nat>)
    ensures r.Some? ==> r.value < |table| && table[r.value].id == id
    ensures r.None? <==> !HasId(table, id)
  {
    FirstIndex(table, (g: Ingredient) => g.id == id)
  }

  /** `getIngredientById(id)`: the ingredient with that id, or "Ingredient not found". */
  function GetIngredientById(table: seq<Ingredient>, id: string): (r: Result<Ingredient, IngredientError>)
    ensures r.Ok? <==> HasId(table, id)
    ensures r.Ok? ==> r.value in table && r.value.id == id
    ensures r.Ok? ==> r.value == table[IndexOfId(table, id).value]
    ensures r.Err? ==> r.error == NotFound && Message(r.error) == Some(IngredientNotFound)
  {
    match IndexOfId(table, id)
    case None => Err(NotFound)
    case Some(i) => Ok(table[i])
  }

  /** `getIngredientsByCategory(category)`: every ingredient of exactly
      that category, as often as the table holds it. */
  function GetIngredientsByCategory(table: seq<Ingredient>, category: string): (r: seq<Ingredient>)
    ensures forall g :: g in r <==> g in table && g.category == category
    ensures forall g :: multiset(r)[g] == if g.category == category then multiset(table)[g] else 0
  {
    Filter(table, (g: Ingredient) => g.category == category)
  }

  function Categories(table: seq<Ingredient>): (r: seq<string>)
    ensures |r| == |table|
    ensures forall k :: 0 <= k < |table| ==> r[k] == table[k].category
  {
    seq(|table|, k requires 0 <= k < |table| => table[k].category)
  }

  /** `getAllCategories()`: every category in use, each once. */
  function GetAllCategories(table: seq<Ingredient>): (r: seq<string>)
    ensures NoDuplicates(r)
    ensures forall c :: c in r <==> exists k :: 0 <= k < |table| && table[k].category == c
  {
    var all := Categories(table);
    assert forall c :: c in all <==> exists k :: 0 <= k < |table| && table[k].category == c by {
      forall c | c in all ensures exists k :: 0 <= k < |table| && table[k].category == c {
        var k :| 0 <= k < |all| && all[k] == c;
        assert table[k].category == c;
      }
    }
    Distinct(all)
  }

  /** A category is listed exactly when asking for it finds an ingredient. */
  lemma CategoriesAreNonEmpty(table: seq<Ingredient>, c: string)
    ensures c in GetAllCategories(table) <==> GetIngredientsByCategory(table, c) != []
  {
    var byCategory := GetIngredientsByCategory(table, c);
    if c in GetAllCategories(table) {
      var k :| 0 <= k < |table| && table[k].category == c;
      assert table[k] in byCategory;
    }
    if byCategory != [] {
      assert byCategory[0] in byCategory;
      var k :| 0 <= k < |table| && table[k] == byCategory[0];
      assert table[k].category == c;
    }
  }

  // ---------------------------------------------------------------------
  // Building rows
  // ---------------------------------------------------------------------

  function NewRow(data: NewIngredient, id: string, now: Timestamp): (g: Ingredient)
    ensures g.id == id && g.createdAt == now && g.updatedAt == now
    ensures g.name == data.name && g.category == data.category && g.eNumber == data.eNumber
    ensures g.allergens == data.allergens && g.description == data.description
  {
    Ingredient(id, data.name, data.category, data.eNumber, data.allergens, data.description, now, now)
  }

  function BatchRows(data: seq<NewIngredient>, ids: seq<string>, now: Timestamp): (rows: seq<Ingredient>)
    requires |ids| == |data|
    ensures |rows| == |data|
    ensures forall k :: 0 <= k < |data| ==> rows[k] == NewRow(data[k], ids[k], now)
  {
    seq(|data|, k requires 0 <= k < |data| => NewRow(data[k], ids[k], now))
  }

  /** The copy `duplicateIngredient` creates: name + " (Copy)", every other
      field the source's. */
  function CopyOf(g: Ingredient): (c: NewIngredient)
    ensures c.name == g.name + " (Copy)"
    ensures c.category == g.category && c.eNumber == g.eNumber
    ensures c.allergens == g.allergens && c.description == g.description
  {
    NewIngredient(g.name + " (Copy)", g.category, g.eNumber, g.allergens, g.description)
  }

  /** A row as a JavaScript object: all eight columns, null where a column
      is null; the two timestamps are `Date` objects. */
  function RowRaw(g: Ingredient): Raw {
    map[
      "id" := JString(g.id), "name" := JString(g.name), "category" := JString(g.category),
      "eNumber" := OptJson(g.eNumber), "allergens" := ListJson(g.allergens),
      "description" := OptJson(g.description), "createdAt" := JOther, "updatedAt" := JOther]
  }

  /** The columns `duplicateIngredient` deletes from the spread row. */
  const RowOnlyKeys: set<string> := {"id", "createdAt", "updatedAt"}

  /** `{...original, name}` with id, createdAt and updatedAt deleted. */
  function DuplicateBody(g: Ingredient): Raw {
    RowRaw(g)["name" := JString(g.name + " (Copy)")] - RowOnlyKeys
  }

  /** Spreading the row, overriding the name, and deleting the three
      row-only columns gives exactly the copy's insert body. */
  lemma DuplicateBodyIsCopyBody(g: Ingredient)
    ensures DuplicateBody(g) == IngredientRaw(CopyOf(g))
  {
    var body := DuplicateBody(g);
    var want := IngredientRaw(CopyOf(g));
    assert body.Keys == want.Keys;
    forall k | k in want.Keys ensures body[k] == want[k] {
    }
  }

  lemma DuplicateBodyParses(g: Ingredient)
    ensures ParseInsertIngredient(DuplicateBody(g)) == Ok(CopyOf(g))
  {
    DuplicateBodyIsCopyBody(g);
    ParseIngredientRaw(CopyOf(g));
  }

  /** `set({...ingredientData, updatedAt: new Date()})` on one row. */
  function ApplyPatch(g: Ingredient, patch: IngredientPatch, now: Timestamp): (r: Ingredient)
    ensures r.id == g.id && r.createdAt == g.createdAt && r.updatedAt == now
    ensures r.name == Pick(patch.name, g.name) && r.category == Pick(patch.category, g.category)
    ensures r.eNumber == Pick(patch.eNumber, g.eNumber)
    ensures r.allergens == Pick(patch.allergens, g.allergens)
    ensures r.description == Pick(patch.description, g.description)
  {
    g.(name := Pick(patch.name, g.name), category := Pick(patch.category, g.category),
       eNumber := Pick(patch.eNumber, g.eNumber), allergens := Pick(patch.allergens, g.allergens),
       description := Pick(patch.description, g.description), updatedAt := now)
  }

  lemma RemoveRowOfId(t: seq<Ingredient>, i: nat)
    requires IdsDistinct(t) && i < |t|
    ensures forall g :: g in RemoveAt(t, i) <==> g in t && g.id != t[i].id
    ensures !HasId(RemoveAt(t, i), t[i].id)
  {
    var r := RemoveAt(t, i);
    forall g | g in t && g.id != t[i].id ensures g in r {
      var k :| 0 <= k < |t| && t[k] == g;
      if k < i { assert r[k] == g; } else { assert r[k - 1] == g; }
    }
  }

  /** Only create checks the pair: an update may give an ingredient the
      name and category of another one. */
  lemma UpdateMayRepeatAPair(t: seq<Ingredient>, i: nat, j: nat, now: Timestamp)
    requires i < |t| && j < |t| && i != j
    ensures
      var patch := IngredientPatch(Some(t[j].name), Some(t[j].category), None, None, None);
      !PairsDistinct(t[i := ApplyPatch(t[i], patch, now)])
  {
    var patch := IngredientPatch(Some(t[j].name), Some(t[j].category), None, None, None);
    var u := t[i := ApplyPatch(t[i], patch, now)];
    if i < j {
      assert u[i].name == u[j].name && u[i].category == u[j].category;
    } else {
      assert u[j].name == u[i].name && u[j].category == u[i].category;
    }
  }

  /** Only create checks the pair: a bulk insert may repeat it. */
  lemma BulkMayRepeatAPair(d: NewIngredient, a: string, b: string, now: Timestamp)
    ensures !PairsDistinct(BatchRows([d, d], [a, b], now))
  {
    var rows := BatchRows([d, d], [a, b], now);
    assert rows[0].name == rows[1].name && rows[0].category == rows[1].category;
  }

  // ---------------------------------------------------------------------
  // The service over its table
  // ---------------------------------------------------------------------

  class IngredientService {
    var ingredients: seq<Ingredient>

    /** The storage-level constraint of the table. */
    ghost predicate Valid()
      reads this
    {
      IdsDistinct(ingredients)
    }

    constructor ()
      ensures Valid() && ingredients == []
    {
      ingredients := [];
    }

    /** `createIngredient(ingredientData)`. */
    method CreateIngredient(raw: Raw, freshId: string, now: Timestamp) returns (r: Result<Ingredient, IngredientError>)
      requires Valid() && !HasId(ingredients, freshId)
      modifies this
      ensures Valid()
      ensures var parsed := ParseInsertIngredient(raw);
        && (parsed.Err? ==> r == Err(Invalid(parsed.error)))
        && (parsed.Ok? && PairInUse(old(ingredients), parsed.value.name, parsed.value.category)
            ==> r == Err(DuplicateNameAndCategory))
        && (parsed.Ok? && !PairInUse(old(ingredients), parsed.value.name, parsed.value.category)
            ==> r == Ok(NewRow(parsed.value, freshId, now)))
      ensures r.Err? ==> ingredients == old(ingredients)
      ensures r.Ok? ==> ingredients == old(ingredients) + [r.value]
      ensures PairsDistinct(old(ingredients)) ==> PairsDistinct(ingredients)
      ensures r == Err(DuplicateNameAndCategory) ==> Message(r.error) == Some(IngredientAlreadyExists)
    {
      var parsed := ParseInsertIngredient(raw);
      if parsed.Err? {
        return Err(Invalid(parsed.error));
      }
      var data := parsed.value;
      if PairInUse(ingredients, data.name, data.category) {
        return Err(DuplicateNameAndCategory);
      }
      var row := NewRow(data, freshId, now);
      if PairsDistinct(ingredients) {
        AppendKeepsPairsDistinct(ingredients, row);
      }
      ingredients := ingredients + [row];
      r := Ok(row);
    }

    /** `updateIngredient(id, ingredientData)`: no check beyond existence. */
    method UpdateIngredient(id: string, patch: IngredientPatch, now: Timestamp)
      returns (r: Result<Ingredient, IngredientError>)
      requires Valid()
      modifies this
      ensures Valid()
      ensures r.Err? <==> !HasId(old(ingredients), id)
      ensures r.Err? ==> r.error == NotFound && ingredients == old(ingredients)
      ensures r.Ok? ==>
        var i := IndexOfId(old(ingredients), id).value;
        && r.value == ApplyPatch(old(ingredients)[i], patch, now)
        && ingredients == old(ingredients)[i := r.value]
    {
      var found := IndexOfId(ingredients, id);
      if found.None? {
        return Err(NotFound);
      }
      var i := found.value;
      var updated := ApplyPatch(ingredients[i], patch, now);
      var next := ingredients[i := updated];
      assert IdsDistinct(next) by {
        forall a, b | 0 <= a < b < |next| ensures next[a].id != next[b].id {
          assert next[a].id == ingredients[a].id && next[b].id == ingredients[b].id;
        }
      }
      ingredients := next;
      r := Ok(updated);
    }

    /** `deleteIngredient(id)`. */
    method DeleteIngredient(id: string) returns (r: Result<string, IngredientError>)
      requires Valid()
      modifies this
      ensures Valid()
      ensures r.Err? <==> !HasId(old(ingredients), id)
      ensures r.Err? ==> r.error == NotFound && ingredients == old(ingredients)
      ensures r.Ok? ==> r.value == IngredientDeleted
      ensures r.Ok? ==> ingredients == RemoveAt(old(ingredients), IndexOfId(old(ingredients), id).value)
      ensures r.Ok? ==> !HasId(ingredients, id)
      ensures r.Ok? ==> forall g :: g in ingredients <==> g in old(ingredients) && g.id != id
    {
      var found := IndexOfId(ingredients, id);
      if found.None? {
        return Err(NotFound);
      }
      RemoveRowOfId(ingredients, found.value);
      ingredients := RemoveAt(ingredients, found.value);
      r := Ok(IngredientDeleted);
    }

    static method DuplicateRequest(source: Ingredient) returns (body: Raw)
      ensures ParseInsertIngredient(body) == Ok(CopyOf(source))
    {
      body := DuplicateBody(source);
      DuplicateBodyParses(source);
    }

    /** `duplicateIngredient(id)`: a copy named "<name> (Copy)", created
        through `createIngredient`; it fails while an earlier copy of the
        same name and category exists. */
    method DuplicateIngredient(id: string, freshId: string, now: Timestamp)
      returns (r: Result<Ingredient, IngredientError>)
      requires Valid() && !HasId(ingredients, freshId)
      modifies this
      ensures Valid()
      ensures r.Err? ==> ingredients == old(ingredients)
      ensures !HasId(old(ingredients), id) ==> r == Err(NotFound)
      ensures HasId(old(ingredients), id) ==>
        var copy := CopyOf(old(ingredients)[IndexOfId(old(ingredients), id).value]);
        && (PairInUse(old(ingredients), copy.name, copy.category) ==> r == Err(DuplicateNameAndCategory))
        && (!PairInUse(old(ingredients), copy.name, copy.category) ==> r == Ok(NewRow(copy, freshId, now)))
      ensures r.Ok? ==> ingredients == old(ingredients) + [r.value]
      ensures PairsDistinct(old(ingredients)) ==> PairsDistinct(ingredients)
    {
      var original := GetIngredientById(ingredients, id);
      if original.Err? {
        return Err(NotFound);
      }
      var body := DuplicateRequest(original.value);
      r := CreateIngredient(body, freshId, now);
    }

    /** `bulkCreateIngredients(ingredientsData)`: every record validated
        first, then all of them inserted in one statement; the name and
        category pair is not checked. */
    method BulkCreateIngredients(raws: seq<Raw>, freshIds: seq<string>, now: Timestamp)
      returns (r: Result<seq<Ingredient>, IngredientError>)
      requires Valid()
      requires |freshIds| == |raws| && NoDuplicates(freshIds)
      requires forall k :: 0 <= k < |freshIds| ==> !HasId(ingredients, freshIds[k])
      modifies this
      ensures Valid()
      ensures r.Err? ==> ingredients == old(ingredients)
      ensures ParseEach(raws, ParseInsertIngredient).Err? ==>
        r == Err(Invalid(ParseEach(raws, ParseInsertIngredient).error))
      ensures ParseEach(raws, ParseInsertIngredient).Ok? && raws == [] ==> r == Err(EmptyBatch)
      ensures ParseEach(raws, ParseInsertIngredient).Ok? && raws != [] ==>
        var rows := BatchRows(ParseEach(raws, ParseInsertIngredient).value, freshIds, now);
        r == Ok(rows) && ingredients == old(ingredients) + rows
    {
      var parsed := ParseEach(raws, ParseInsertIngredient);
      if parsed.Err? {
        return Err(Invalid(parsed.error));
      }
      var rows := BatchRows(parsed.value, freshIds, now);
      if rows == [] {
        return Err(EmptyBatch);
      }
      var next := ingredients + rows;
      assert IdsDistinct(next) by {
        forall a, b | 0 <= a < b < |next| ensures next[a].id != next[b].id {
          if b >= |ingredients| {
            assert next[b].id == freshIds[b - |ingredients|];
            if a >= |ingredients| {
              assert next[a].id == freshIds[a - |ingredients|];
            } else {
              assert !HasId(ingredients, freshIds[b - |ingredients|]);
            }
          }
        }
      }
      ingredients := next;
      r := Ok(rows);
    }
  }
}
