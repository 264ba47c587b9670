/** What the services ask of the relational store when they list rows: the
    SQL `LIKE`/`ILIKE` matcher used by the search filters, filtering a table
    by a row predicate, first-match lookup (`... WHERE ... LIMIT 1`),
    de-duplication (`SELECT DISTINCT`) and the LIMIT/OFFSET window with its
    page count. Rows are kept in table order; no query in the services has
    an ORDER BY, so table order is the listing order. */
module Query {
  import opened Wrappers

  // ---------------------------------------------------------------------
  // Case folding and substrings
  // ---------------------------------------------------------------------

  /** ASCII lower-casing of one character. */
  function LowerChar(c: char): (r: char)
    ensures 'A' <= c <= 'Z' ==> 'a' <= r <= 'z' && r as int == c as int + 32
    ensures !('A' <= c <= 'Z') ==> r == c
  {
    if 'A' <= c <= 'Z' then (c as int + 32) as char else c
  }

  function Lower(s: string): (r: string)
    ensures |r| == |s|
    ensures forall i :: 0 <= i < |s| ==> r[i] == LowerChar(s[i])
  {
    seq(|s|, i requires 0 <= i < |s| => LowerChar(s[i]))
  }

  lemma LowerConcat(a: string, b: string)
    ensures Lower(a + b) == Lower(a) + Lower(b)
  {
    assert forall i :: 0 <= i < |a + b| ==> Lower(a + b)[i] == (Lower(a) + Lower(b))[i];
  }

  /** `t` occurs in `s` starting at index `i`. */
  predicate OccursAt(s: string, t: string, i: nat) {
    i + |t| <= |s| && s[i..i + |t|] == t
  }

  /** `t` occurs in `s` as a contiguous block of characters. */
  predicate Contains(s: string, t: string) {
    exists i :: 0 <= i <= |s| && OccursAt(s, t, i)
  }

  /** The reference meaning of a case-insensitive substring search. */
  predicate ContainsIgnoringCase(s: string, t: string) {
    Contains(Lower(s), Lower(t))
  }

  // ---------------------------------------------------------------------
  // LIKE and ILIKE
  // ---------------------------------------------------------------------

  const AnyString: char := '%'
  const AnyChar: char := '_'
  const Escape: char := '\\'

  /** The characters that `LIKE` gives a meaning to. */
  predicate IsPatternChar(c: char) {
    c == AnyString || c == AnyChar || c == Escape
  }

  predicate IsLiteral(t: string) {
    forall i :: 0 <= i < |t| ==> !IsPatternChar(t[i])
  }

  /** The SQL `LIKE` matcher: `%` matches any run of characters, `_` any one
      character, and a backslash makes the next pattern character literal.
      A pattern that ends in a lone backslash is an error in the database;
      here it matches nothing (every pattern the services build ends in
      `%`, so that case does not arise). */
  predicate Like(s: string, p: string)
    ensures IsLiteral(p) ==> (Like(s, p) <==> s == p)
    decreases |s| + |p|
  {
    if p == [] then s == []
    else if p[0] == AnyString then Like(s, p[1..]) || (s != [] && Like(s[1..], p))
    else if p[0] == AnyChar then s != [] && Like(s[1..], p[1..])
    else if p[0] == Escape then |p| >= 2 && s != [] && s[0] == p[1] && Like(s[1..], p[2..])
    else
      assert IsLiteral(p) ==> IsLiteral(p[1..]) by {
        if IsLiteral(p) {
          forall i | 0 <= i < |p[1..]| ensures !IsPatternChar(p[1..][i]) {
            assert p[1..][i] == p[i + 1];
          }
        }
      }
      assert s != [] && s[0] == p[0] && s[1..] == p[1..] ==> s == p by {
        if s != [] && s[0] == p[0] && s[1..] == p[1..] {
          assert s == [s[0]] + s[1..];
          assert p == [p[0]] + p[1..];
        }
      }
      s != [] && s[0] == p[0] && Like(s[1..], p[1..])
  }

  /** `ILIKE`: `LIKE` after lower-casing both the text and the pattern; a
      pattern without wildcards matches exactly the texts equal to it
      ignoring case. */
  predicate ILike(s: string, p: string)
    ensures IsLiteral(p) ==> (ILike(s, p) <==> Lower(s) == Lower(p))
  {
    assert IsLiteral(p) ==> IsLiteral(Lower(p)) by {
      if IsLiteral(p) {
        forall i | 0 <= i < |Lower(p)| ensures !IsPatternChar(Lower(p)[i]) {
          assert Lower(p)[i] == LowerChar(p[i]);
        }
      }
    }
    Like(Lower(s), Lower(p))
  }

  /** The pattern the services build from a search term: `%term%`. */
  function SearchPattern(term: string): (p: string)
    ensures |p| == |term| + 2 && p[0] == AnyString && p[|p| - 1] == AnyString
    ensures p[1..|p| - 1] == term
  {
    [AnyString] + term + [AnyString]
  }

  /** A JavaScript `if (search)`: an absent or empty term is no filter. */
  predicate IsSearching(search: Option<string>) {
    search.Some? && search.value != ""
  }

  lemma {:induction false} LikeAnyStringAlone(s: string)
    ensures Like(s, [AnyString])
    decreases |s|
  {
    if s != [] {
      LikeAnyStringAlone(s[1..]);
    }
  }

  /** A leading `%` lets the rest of the pattern match any suffix. */
  lemma {:induction false} LikeLeadingAnyString(s: string, q: string)
    ensures Like(s, [AnyString] + q) <==> exists i :: 0 <= i <= |s| && Like(s[i..], q)
    decreases |s|
  {
    var p := [AnyString] + q;
    assert p[1..] == q;
    assert s[0..] == s;
    if s != [] {
      LikeLeadingAnyString(s[1..], q);
      if Like(s[1..], p) {
        var j :| 0 <= j <= |s[1..]| && Like(s[1..][j..], q);
        assert s[1..][j..] == s[j + 1..];
      }
      if i :| 0 < i <= |s| && Like(s[i..], q) {
        assert s[1..][i - 1..] == s[i..];
      }
    }
  }

  /** A literal followed by `%` matches exactly the texts it is a prefix of. */
  lemma {:induction false} LikeLiteralThenAnyString(s: string, t: string)
    requires IsLiteral(t)
    ensures Like(s, t + [AnyString]) <==> |t| <= |s| && s[..|t|] == t
    decreases |t|
  {
    if t == [] {
      assert t + [AnyString] == [AnyString];
      LikeAnyStringAlone(s);
    } else {
      var p := t + [AnyString];
      assert p[0] == t[0] && p[1..] == t[1..] + [AnyString];
      assert IsLiteral(t[1..]) by {
        forall i | 0 <= i < |t[1..]| ensures !IsPatternChar(t[1..][i]) {
          assert t[1..][i] == t[i + 1];
        }
      }
      assert !IsPatternChar(t[0]);
      if s != [] {
        LikeLiteralThenAnyString(s[1..], t[1..]);
        if |t| <= |s| && s[..|t|] == t {
          assert s[1..][..|t| - 1] == s[..|t|][1..];
        }
        if |t[1..]| <= |s[1..]| && s[1..][..|t[1..]|] == t[1..] && s[0] == t[0] {
          assert s[..|t|] == [s[0]] + s[1..][..|t[1..]|];
          assert t == [t[0]] + t[1..];
        }
      }
    }
  }

  /** `LIKE '%t%'` with a literal `t` is substring search. */
  lemma LikeSearchIsContains(s: string, t: string)
    requires IsLiteral(t)
    ensures Like(s, SearchPattern(t)) <==> Contains(s, t)
  {
    var q := t + [AnyString];
    assert SearchPattern(t) == [AnyString] + q;
    LikeLeadingAnyString(s, q);
    if Like(s, SearchPattern(t)) {
      var i :| 0 <= i <= |s| && Like(s[i..], q);
      LikeLiteralThenAnyString(s[i..], t);
      assert s[i..][..|t|] == s[i..i + |t|];
      assert OccursAt(s, t, i);
    }
    if Contains(s, t) {
      var i :| 0 <= i <= |s| && OccursAt(s, t, i);
      LikeLiteralThenAnyString(s[i..], t);
      assert s[i..][..|t|] == s[i..i + |t|];
    }
  }

  /** The search filter's meaning: for a term without pattern characters,
      `ILIKE '%term%'` holds exactly when the term occurs in the text,
      ignoring case. */
  lemma ILikeSearchIsContainsIgnoringCase(s: string, t: string)
    requires IsLiteral(t)
    ensures ILike(s, SearchPattern(t)) <==> ContainsIgnoringCase(s, t)
  {
    LowerConcat([AnyString], t);
    LowerConcat([AnyString] + t, [AnyString]);
    assert Lower(SearchPattern(t)) == SearchPattern(Lower(t));
    assert IsLiteral(Lower(t)) by {
      forall i | 0 <= i < |t| ensures !IsPatternChar(Lower(t)[i]) {
        assert !IsPatternChar(t[i]);
      }
    }
    LikeSearchIsContains(Lower(s), Lower(t));
  }

  // ---------------------------------------------------------------------
  // Filtering, lookup, DISTINCT
  // ---------------------------------------------------------------------

  /** The rows of `xs` that satisfy `keep` (a `WHERE` clause), in table order. */
  function Filter<T(!new)>(xs: seq<T>, keep: T -> bool): (r: seq<T>)
    ensures |r| <= |xs|
    ensures forall x :: multiset(r)[x] == if keep(x) then multiset(xs)[x] else 0
    ensures forall x :: x in r <==> x in xs && keep(x)
  {
    if xs == [] then []
    else
      var rest := Filter(xs[1..], keep);
      assert xs == [xs[0]] + xs[1..];
      assert forall x :: multiset(xs)[x] == multiset([xs[0]])[x] + multiset(xs[1..])[x];
      if keep(xs[0]) then [xs[0]] + rest else rest
  }

  /** The index of the first row satisfying `p`, as a `LIMIT 1` lookup finds it. */
  function FirstIndex<T>(xs: seq<T>, p: T -> bool): (r: Option<nat>)
    ensures r.Some? ==> r.value < |xs| && p(xs[r.value])
    ensures r.Some? ==> forall j :: 0 <= j < r.value ==> !p(xs[j])
    ensures r.None? <==> forall j :: 0 <= j < |xs| ==> !p(xs[j])
  {
    if xs == [] then None
    else if p(xs[0]) then Some(0)
    else
      match FirstIndex(xs[1..], p)
      case None => None
      case Some(k) => Some(k + 1)
  }

  predicate NoDuplicates<T(==)>(xs: seq<T>) {
    forall i, j :: 0 <= i < j < |xs| ==> xs[i] != xs[j]
  }

  /** `SELECT DISTINCT`: each value of `xs` once (the last occurrence is kept). */
  function Distinct<T(==,!new)>(xs: seq<T>): (r: seq<T>)
    ensures NoDuplicates(r)
    ensures forall x :: x in r <==> x in xs
  {
    if xs == [] then []
    else
      var rest := Distinct(xs[1..]);
      assert forall x :: x in xs <==> x == xs[0] || x in xs[1..];
      if xs[0] in rest then rest else [xs[0]] + rest
  }

  /** `DELETE … WHERE` on the one row at position i: the rows before it
      and after it, in order. */
  function RemoveAt<T>(t: seq<T>, i: nat): (r: seq<T>)
    requires i < |t|
    ensures |r| == |t| - 1
    ensures forall k :: 0 <= k < i ==> r[k] == t[k]
    ensures forall k :: i <= k < |r| ==> r[k] == t[k + 1]
  {
    t[..i] + t[i + 1..]
  }

  // ---------------------------------------------------------------------
  // LIMIT / OFFSET and the page count
  // ---------------------------------------------------------------------

  /** The database refuses a LIMIT or OFFSET outside its 64-bit `bigint`
      range when it binds the parameters, and then, running the query, a
      negative OFFSET and a negative LIMIT, checking the offset first. */
  datatype QueryError = OutOfRange | NegativeOffset | NegativeLimit

  const MinBigint: int := -0x8000_0000_0000_0000
  const MaxBigint: int := 0x7FFF_FFFF_FFFF_FFFF

  /** A value PostgreSQL accepts as a `bigint` parameter. */
  predicate InBigint(n: int) { MinBigint <= n <= MaxBigint }

  /** Both the offset and the limit of page `page` bind as `bigint`s. */
  predicate Bindable(page: int, limit: int) { InBigint(PageOffset(page, limit)) && InBigint(limit) }

  /** The `pagination` object of a listing. `pages` is None where the
      service's `Math.ceil(total / limit)` is not a finite number (limit 0),
      which the JSON response carries as null. */
  datatype PageInfo = PageInfo(page: int, limit: int, total: nat, pages: Option<nat>)

  function Min(a: int, b: int): int { if a <= b then a else b }
  function Max(a: int, b: int): int { if a <= b then b else a }

  /** `(page - 1) * limit`, the offset the services compute. */
  function PageOffset(page: int, limit: int): (offset: int)
    ensures page >= 1 && limit >= 0 ==> offset >= 0
    ensures page <= 0 && limit > 0 ==> offset < 0
  {
    (page - 1) * limit
  }

  /** `LIMIT limit OFFSET offset` over rows in table order. */
  function Window<T>(xs: seq<T>, offset: nat, limit: nat): (r: seq<T>)
    ensures |r| == Min(limit, Max(0, |xs| - offset))
    ensures forall k :: 0 <= k < |r| ==> r[k] == xs[offset + k]
  {
    if offset >= |xs| then [] else xs[offset..Min(offset + limit, |xs|)]
  }

  /** `Math.ceil(total / limit)` for a non-negative limit; a limit of 0
      makes the quotient Infinity or NaN, which JSON renders as null. */
  function PageCount(total: nat, limit: nat): (r: Option<nat>)
    ensures r.None? <==> limit == 0
    ensures r.Some? ==> total <= r.value * limit
    ensures r.Some? && r.value > 0 ==> (r.value - 1) * limit < total
  {
    if limit == 0 then None else Some(CeilDiv(total, limit))
  }

  /** The least n with total <= n * limit, counted one page at a time. */
  function CeilDiv(total: nat, limit: nat): (n: nat)
    requires limit > 0
    ensures total <= n * limit
    ensures n > 0 ==> (n - 1) * limit < total
    decreases total
  {
    if total == 0 then 0
    else if total <= limit then 1
    else
      var m := CeilDiv(total - limit, limit);
      assert (m + 1) * limit == m * limit + limit;
      m + 1
  }

  /** One page of the already-filtered rows `matching`, with its pagination
      object, or the database's error for an offset or limit beyond
      `bigint`, then for a negative offset or limit. */
  function Paginate<T>(matching: seq<T>, page: int, limit: int): (r: Result<(seq<T>, PageInfo), QueryError>)
    ensures r == Err(OutOfRange) <==> !Bindable(page, limit)
    ensures r == Err(NegativeOffset) <==> Bindable(page, limit) && PageOffset(page, limit) < 0
    ensures r == Err(NegativeLimit) <==> Bindable(page, limit) && PageOffset(page, limit) >= 0 && limit < 0
    ensures r.Ok? ==> 0 <= limit <= MaxBigint && 0 <= PageOffset(page, limit) <= MaxBigint
    ensures r.Ok? ==> r.value.1 == PageInfo(page, limit, |matching|, PageCount(|matching|, limit))
    ensures r.Ok? ==>
      var rows := r.value.0;
      var offset := PageOffset(page, limit);
      && |rows| == Min(limit, Max(0, |matching| - offset))
      && forall k :: 0 <= k < |rows| ==> rows[k] == matching[offset + k]
  {
    var offset := PageOffset(page, limit);
    if !InBigint(offset) || !InBigint(limit) then Err(OutOfRange)
    else if offset < 0 then Err(NegativeOffset)
    else if limit < 0 then Err(NegativeLimit)
    else Ok((Window(matching, offset, limit), PageInfo(page, limit, |matching|, PageCount(|matching|, limit))))
  }

  /** Pages 1 to n laid end to end. */
  function PagesUpTo<T>(xs: seq<T>, limit: nat, n: nat): seq<T> {
    if n == 0 then [] else PagesUpTo(xs, limit, n - 1) + Window(xs, PageOffset(n, limit), limit)
  }

  /** The first n pages are exactly the first n * limit rows. */
  lemma {:induction false} PagesUpToIsPrefix<T>(xs: seq<T>, limit: nat, n: nat)
    ensures PagesUpTo(xs, limit, n) == xs[..Min(n * limit, |xs|)]
  {
    if n > 0 {
      PagesUpToIsPrefix(xs, limit, n - 1);
      var start := PageOffset(n, limit);
      NextOffset(n, limit);
      var a := Min(start, |xs|);
      var b := Min(start + limit, |xs|);
      assert xs[..b] == xs[..a] + xs[a..b];
      assert Window(xs, start, limit) == xs[a..b];
    }
  }

  /** Paging with a positive limit neither loses nor repeats a row: pages 1
      to PageCount, concatenated, are the whole filtered listing, and
      every page after the last is empty. */
  lemma PagesCoverListing<T>(xs: seq<T>, limit: nat)
    requires limit > 0
    ensures PagesUpTo(xs, limit, PageCount(|xs|, limit).value) == xs
    ensures forall p: nat :: p > PageCount(|xs|, limit).value ==> Window(xs, PageOffset(p, limit), limit) == []
  {
    AllPagesAreTheListing(xs, limit, PageCount(|xs|, limit).value);
    forall p: nat | p > PageCount(|xs|, limit).value
      ensures Window(xs, PageOffset(p, limit), limit) == []
    {
      PastLastPageIsEmpty(xs, limit, p);
    }
  }

  lemma AllPagesAreTheListing<T>(xs: seq<T>, limit: nat, n: nat)
    requires |xs| <= n * limit
    ensures PagesUpTo(xs, limit, n) == xs
  {
    PagesUpToIsPrefix(xs, limit, n);
    assert xs[..|xs|] == xs;
  }

  lemma PastLastPageIsEmpty<T>(xs: seq<T>, limit: nat, p: nat)
    requires limit > 0 && p > PageCount(|xs|, limit).value
    ensures Window(xs, PageOffset(p, limit), limit) == []
  {
    var n := PageCount(|xs|, limit).value;
    NextOffset(p, limit);
    MulMonotone(n, p - 1, limit);
    assert |xs| <= PageOffset(p, limit);
    assert |Window(xs, PageOffset(p, limit), limit)| == 0;
  }

  lemma NextOffset(n: nat, limit: nat)
    requires n > 0
    ensures PageOffset(n, limit) >= 0
    ensures PageOffset(n, limit) + limit == n * limit
    ensures PageOffset(n, limit) == (n - 1) * limit
  {
  }

  lemma MulMonotone(a: nat, b: nat, c: nat)
    requires a <= b
    ensures a * c <= b * c
  {
  }

  /** Every page before the last is full, and the last holds the remainder. */
  lemma PageSizes<T>(xs: seq<T>, limit: nat, p: nat)
    requires limit > 0 && 1 <= p <= PageCount(|xs|, limit).value
    ensures p < PageCount(|xs|, limit).value ==> |Window(xs, PageOffset(p, limit), limit)| == limit
    ensures p == PageCount(|xs|, limit).value ==>
      |Window(xs, PageOffset(p, limit), limit)| == |xs| - PageOffset(p, limit) > 0
  {
    var n := PageCount(|xs|, limit).value;
    NextOffset(p, limit);
    if p < n {
      MulMonotone(p, n - 1, limit);
    }
  }

  /** Twenty-five rows at ten per page: pages of 10, 10 and 5, and pages = 3. */
  lemma TwentyFiveRowsInPagesOfTen<T>(xs: seq<T>)
    requires |xs| == 25
    ensures PageCount(|xs|, 10) == Some(3)
    ensures |Window(xs, PageOffset(1, 10), 10)| == 10
    ensures |Window(xs, PageOffset(2, 10), 10)| == 10
    ensures |Window(xs, PageOffset(3, 10), 10)| == 5
    ensures Window(xs, PageOffset(4, 10), 10) == []
  {
  }
}
