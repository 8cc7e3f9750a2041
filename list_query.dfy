/** Query-parameter resolution and WHERE/parameter construction shared by the
    three list endpoints (`/books`, `/my-books`, `/reading-list`), and the
    pagination metadata derived from the COUNT query. Predicates are typed
    values; the SQL text they would render to is not modelled. */
module ListQuery {
  import opened Common

  /** Which list endpoint is being served. The user-scoped lists carry the
      verified caller id. */
  datatype Scope = AllBooks | MyBooks(userId: int) | ReadingList(userId: int)

  /** The request's query string as the handler sees it. `page` and `limit`
      are the results of `parseInt` (None = parameter absent or NaN). */
  datatype RawQuery = RawQuery(
    q: Option<string>,
    genre: Option<string>,
    page: Option<int>,
    limit: Option<int>,
    sort: Option<string>,
    order: Option<string>)

  const DefaultPage: int := 1
  const DefaultLimit: int := 20
  const MaxLimit: int := 50

  // ---------------------------------------------------------------------------
  // Page, limit, offset

  /** `Math.max(parseInt(page) || 1, 1)` */
  function ResolvePage(page: Option<int>): (r: int)
    ensures r >= 1
    ensures page.None? || page.value <= 1 ==> r == 1
    ensures page.Some? && page.value >= 1 ==> r == page.value
  {
    var p := if page.Some? && page.value != 0 then page.value else DefaultPage;
    if p < 1 then 1 else p
  }

  /** `Math.min(parseInt(limit) || 20, 50)`. A negative limit is passed
      through unchanged; the result is never zero. */
  function ResolveLimit(limit: Option<int>): (r: int)
    ensures r <= MaxLimit && r != 0
    ensures limit.None? || limit.value == 0 ==> r == DefaultLimit
    ensures limit.Some? && limit.value != 0 && limit.value <= MaxLimit ==> r == limit.value
    ensures limit.Some? && limit.value > MaxLimit ==> r == MaxLimit
  {
    var l := if limit.Some? && limit.value != 0 then limit.value else DefaultLimit;
    if l < MaxLimit then l else MaxLimit
  }

  /** Rows skipped before the requested page: one full page per earlier
      page, as the list handlers compute it (index.js:56). */
  function Offset(page: int, limit: int): int
  {
    (page - 1) * limit
  }

  // ---------------------------------------------------------------------------
  // Sort column and direction

  /** The per-endpoint whitelist of sort keys and the columns they stand for. */
  function SortMap(scope: Scope): map<string, string>
  {
    match scope
    case AllBooks => map["title" := "books.title", "created_at" := "books.created_at"]
    case MyBooks(_) => map["title" := "books.title", "created_at" := "user_books.added_at"]
    case ReadingList(_) => map["title" := "books.title", "created_at" := "reading_list.added_at"]
  }

  /** The key whose column is used when the requested key is not whitelisted. */
  function DefaultSortKey(scope: Scope): string
  {
    if scope.AllBooks? then "title" else "created_at"
  }

  function DefaultSortColumn(scope: Scope): (c: string)
    ensures scope.AllBooks? ==> c == "books.title"
    ensures scope.MyBooks? ==> c == "user_books.added_at"
    ensures scope.ReadingList? ==> c == "reading_list.added_at"
  {
    SortMap(scope)[DefaultSortKey(scope)]
  }

  /** `SORT_MAP[req.query.sort] || SORT_MAP.<default>`: the column is always one
      of the whitelist's values, never the requested text. */
  function ResolveSort(scope: Scope, sort: Option<string>): (c: string)
    ensures c in SortMap(scope).Values
    ensures sort.Some? && sort.value in SortMap(scope) ==> c == SortMap(scope)[sort.value]
    ensures (sort.None? || sort.value !in SortMap(scope)) ==> c == DefaultSortColumn(scope)
  {
    if sort.Some? && sort.value in SortMap(scope) then SortMap(scope)[sort.value]
    else DefaultSortColumn(scope)
  }

  /** Members every plain JavaScript object inherits from `Object.prototype`;
      an index expression `SORT_MAP[key]` finds these as well as the map's
      own keys. */
  const InheritedMembers: set<string> :=
    {"constructor", "toString", "toLocaleString", "valueOf", "hasOwnProperty",
     "isPrototypeOf", "propertyIsEnumerable", "__proto__", "__defineGetter__",
     "__defineSetter__", "__lookupGetter__", "__lookupSetter__"}

  /** What `SORT_MAP[req.query.sort] || default` evaluates to in JavaScript. */
  datatype SortValue = Column(name: string) | InheritedMember(name: string)

  /** The sort resolution as the handlers write it: an inherited member is a
      truthy value, so it wins over the default and is placed in ORDER BY. */
  function ResolveSortAsWritten(scope: Scope, sort: Option<string>): SortValue
  {
    if sort.Some? && sort.value in SortMap(scope) then Column(SortMap(scope)[sort.value])
    else if sort.Some? && sort.value in InheritedMembers then InheritedMember(sort.value)
    else Column(DefaultSortColumn(scope))
  }

  /** `sort=constructor` yields a function, not a whitelisted column, on every
      endpoint; the own-keys resolution gives the default column instead. */
  lemma PrototypeKeyEscapesWhitelist(scope: Scope)
    ensures ResolveSortAsWritten(scope, Some("constructor")) == InheritedMember("constructor")
    ensures ResolveSort(scope, Some("constructor")) == DefaultSortColumn(scope)
  {
  }

  /** The keyword placed after the sort column. */
  datatype Direction = Asc | Desc

  /** `/books` sorts descending only for the exact string "desc"; the
      user-scoped lists sort ascending only for the exact string "asc". */
  function ResolveOrder(scope: Scope, order: Option<string>): (d: Direction)
    ensures scope.AllBooks? ==> (d == Desc <==> order == Some("desc"))
    ensures !scope.AllBooks? ==> (d == Asc <==> order == Some("asc"))
  {
    if scope.AllBooks? then
      (if order == Some("desc") then Desc else Asc)
    else
      (if order == Some("asc") then Asc else Desc)
  }

  // ---------------------------------------------------------------------------
  // WHERE predicates and their positional parameters

  /** The link table whose `user_id` column scopes a personal list. */
  datatype LinkTable = UserBooksTable | ReadingListTable

  /** One WHERE conjunct; each has exactly one `?` placeholder. */
  datatype Predicate =
    | UserIdIs(table: LinkTable)   // <table>.user_id = ?
    | TitleLike                     // books.title LIKE ?
    | GenreIs                       // books.genre = ?

  /** A bound query parameter. */
  datatype Param = IntArg(i: int) | TextArg(s: string)

  /** A predicate together with the value bound to its placeholder. */
  datatype Filter = Filter(pred: Predicate, arg: Param)

  function Placeholders(p: Predicate): nat
  {
    match p
    case UserIdIs(_) => 1
    case TitleLike => 1
    case GenreIs => 1
  }

  /** Number of `?` in the WHERE list once joined with " AND ". */
  function PlaceholderCount(ps: seq<Predicate>): nat
  {
    if ps == [] then 0 else Placeholders(ps[0]) + PlaceholderCount(ps[1..])
  }

  /** `%${q}%` */
  function LikePattern(q: string): string
  {
    "%" + q + "%"
  }

  /** `req.query.q || ""` */
  function SearchText(q: Option<string>): string
  {
    OrElse(q, "")
  }

  /** The filter every endpoint starts from: the caller's rows (scoped
      lists only), then the title search. */
  function BaseFilters(scope: Scope, q: string): seq<Filter>
  {
    match scope
    case AllBooks => [Filter(TitleLike, TextArg(LikePattern(q)))]
    case MyBooks(u) => [Filter(UserIdIs(UserBooksTable), IntArg(u)), Filter(TitleLike, TextArg(LikePattern(q)))]
    case ReadingList(u) => [Filter(UserIdIs(ReadingListTable), IntArg(u)), Filter(TitleLike, TextArg(LikePattern(q)))]
  }

  /** The reference description of an endpoint's filters as predicate/parameter
      pairs; `genre` is the already resolved `req.query.genre || null`. */
  function Filters(scope: Scope, q: string, genre: Option<string>): seq<Filter>
  {
    BaseFilters(scope, q) + (if genre.Some? then [Filter(GenreIs, TextArg(genre.value))] else [])
  }

  function Clauses(fs: seq<Filter>): (ps: seq<Predicate>)
    ensures |ps| == |fs| && forall i :: 0 <= i < |fs| ==> ps[i] == fs[i].pred
  {
    seq(|fs|, i requires 0 <= i < |fs| => fs[i].pred)
  }

  function Params(fs: seq<Filter>): (args: seq<Param>)
    ensures |args| == |fs| && forall i :: 0 <= i < |fs| ==> args[i] == fs[i].arg
  {
    seq(|fs|, i requires 0 <= i < |fs| => fs[i].arg)
  }

  /** The handler's construction: two parallel arrays grown by `push`. */
  method BuildWhere(scope: Scope, q: string, genre: Option<string>)
    returns (clauses: seq<Predicate>, params: seq<Param>)
    ensures clauses == Clauses(Filters(scope, q, genre))
    ensures params == Params(Filters(scope, q, genre))
  {
    match scope {
      case AllBooks =>
        clauses := [TitleLike];
        params := [TextArg(LikePattern(q))];
      case MyBooks(u) =>
        clauses := [UserIdIs(UserBooksTable), TitleLike];
        params := [IntArg(u), TextArg(LikePattern(q))];
      case ReadingList(u) =>
        clauses := [UserIdIs(ReadingListTable), TitleLike];
        params := [IntArg(u), TextArg(LikePattern(q))];
    }
    if genre.Some? {
      clauses := clauses + [GenreIs];
      params := params + [TextArg(genre.value)];
    }
  }

  // ---------------------------------------------------------------------------
  // Properties of the filters

  lemma {:induction false} PlaceholderCountIsLength(ps: seq<Predicate>)
    ensures PlaceholderCount(ps) == |ps|
  {
    if ps != [] {
      PlaceholderCountIsLength(ps[1..]);
    }
  }

  /** The WHERE list has exactly as many placeholders as there are parameters.
      That each predicate carries one `?` is part of the model (`Placeholders`),
      so this lemma only adds up the count; which value each placeholder
      receives is the subject of `WhereSelectsIntended`. */
  lemma PlaceholdersMatchParams(scope: Scope, q: string, genre: Option<string>)
    ensures PlaceholderCount(Clauses(Filters(scope, q, genre))) == |Params(Filters(scope, q, genre))|
  {
    PlaceholderCountIsLength(Clauses(Filters(scope, q, genre)));
  }

  /** The user-scoped lists put the user-id predicate and its parameter first;
      `/books` has no user-id predicate at all. */
  lemma UserPredicateFirst(scope: Scope, q: string, genre: Option<string>)
    ensures var fs := Filters(scope, q, genre);
      match scope
      case AllBooks => forall i :: 0 <= i < |fs| ==> !fs[i].pred.UserIdIs?
      case MyBooks(u) => fs[0] == Filter(UserIdIs(UserBooksTable), IntArg(u))
      case ReadingList(u) => fs[0] == Filter(UserIdIs(ReadingListTable), IntArg(u))
  {
  }

  /** The genre predicate is present exactly when a genre was given, and it is
      then the last filter, bound to that genre. */
  lemma GenreFilterIff(scope: Scope, q: string, genre: Option<string>)
    ensures var fs := Filters(scope, q, genre);
      && (GenreIs in Clauses(fs) <==> genre.Some?)
      && (genre.Some? ==> fs[|fs| - 1] == Filter(GenreIs, TextArg(genre.value)))
  {
    var fs := Filters(scope, q, genre);
    var base := BaseFilters(scope, q);
    assert forall i :: 0 <= i < |base| ==> fs[i] == base[i] && base[i].pred != GenreIs;
    if genre.Some? {
      assert Clauses(fs)[|fs| - 1] == GenreIs;
    } else {
      assert fs == base;
    }
  }

  // ---------------------------------------------------------------------------
  // What the WHERE list selects

  /** The candidate row the WHERE list is evaluated against: the link row's
      `user_id` (irrelevant for `/books`), the book's title and genre. */
  datatype CandidateRow = CandidateRow(linkUser: int, title: string, genre: Option<string>)

  /** The database's string comparisons, left abstract: `LIKE` and `=` depend on
      the column collation. */
  datatype Collation = Collation(like: (string, string) -> bool, equal: (string, string) -> bool)

  /** One predicate with its bound parameter, evaluated on a row. A parameter
      of the wrong kind never matches. */
  predicate Eval(p: Predicate, arg: Param, row: CandidateRow, c: Collation)
  {
    match (p, arg)
    case (UserIdIs(_), IntArg(u)) => row.linkUser == u
    case (TitleLike, TextArg(pat)) => c.like(row.title, pat)
    case (GenreIs, TextArg(g)) => row.genre.Some? && c.equal(row.genre.value, g)
    case _ => false
  }

  /** The conjunction of a WHERE list, its placeholders bound positionally. */
  predicate Satisfies(clauses: seq<Predicate>, params: seq<Param>, row: CandidateRow, c: Collation)
    decreases |clauses|
  {
    if clauses == [] || params == [] then true
    else Eval(clauses[0], params[0], row, c) && Satisfies(clauses[1..], params[1..], row, c)
  }

  /** What the endpoint is meant to select: the caller's rows, a title matching
      the search pattern and, when given, the genre. */
  predicate Selected(scope: Scope, q: string, genre: Option<string>, row: CandidateRow, c: Collation)
  {
    && (scope.AllBooks? || row.linkUser == scope.userId)
    && c.like(row.title, LikePattern(q))
    && (genre.None? || (row.genre.Some? && c.equal(row.genre.value, genre.value)))
  }

  lemma {:induction false} SatisfiesAppend(c1: seq<Predicate>, p1: seq<Param>, c2: seq<Predicate>, p2: seq<Param>,
                                           row: CandidateRow, c: Collation)
    requires |c1| == |p1|
    ensures Satisfies(c1 + c2, p1 + p2, row, c) == (Satisfies(c1, p1, row, c) && Satisfies(c2, p2, row, c))
    decreases |c1|
  {
    if c1 != [] {
      assert (c1 + c2)[1..] == c1[1..] + c2;
      assert (p1 + p2)[1..] == p1[1..] + p2;
      SatisfiesAppend(c1[1..], p1[1..], c2, p2, row, c);
    } else {
      assert c1 + c2 == c2 && p1 + p2 == p2;
    }
  }

  /** Binding the parameters positionally selects exactly the intended rows. */
  lemma WhereSelectsIntended(scope: Scope, q: string, genre: Option<string>, row: CandidateRow, c: Collation)
    ensures var fs := Filters(scope, q, genre);
      Satisfies(Clauses(fs), Params(fs), row, c) <==> Selected(scope, q, genre, row, c)
  {
    var base := BaseFilters(scope, q);
    var extra := if genre.Some? then [Filter(GenreIs, TextArg(genre.value))] else [];
    var fs := Filters(scope, q, genre);
    assert Clauses(fs) == Clauses(base) + Clauses(extra);
    assert Params(fs) == Params(base) + Params(extra);
    SatisfiesAppend(Clauses(base), Params(base), Clauses(extra), Params(extra), row, c);
    var cb, pb := Clauses(base), Params(base);
    assert Satisfies(cb, pb, row, c) <==>
      (scope.AllBooks? || row.linkUser == scope.userId) && c.like(row.title, LikePattern(q)) by {
      if scope.AllBooks? {
        assert cb[1..] == [] && pb[1..] == [];
      } else {
        assert cb[1..][1..] == [] && pb[1..][1..] == [];
        assert Satisfies(cb[1..], pb[1..], row, c) == c.like(row.title, LikePattern(q));
      }
    }
    assert Satisfies(Clauses(extra), Params(extra), row, c) <==>
      (genre.None? || (row.genre.Some? && c.equal(row.genre.value, genre.value))) by {
      if genre.Some? {
        assert Clauses(extra)[1..] == [] && Params(extra)[1..] == [];
      }
    }
  }

  // ---------------------------------------------------------------------------
  // totalPages and pagination metadata

  /** `Math.ceil(a / b)` for a non-negative count and a non-zero divisor. */
  function CeilDiv(a: nat, b: int): (r: int)
    requires b != 0
    ensures b > 0 ==> (r - 1) * b < a <= r * b
    ensures b < 0 ==> r * b <= a < (r - 1) * b
    ensures a == 0 ==> r == 0
  {
    if b > 0 then (a + b - 1) / b else -(a / -b)
  }

  datatype Pagination = Pagination(currentPage: int, totalPages: int, totalBooks: nat)

  /** The metadata returned with a page: the resolved page is echoed and the
      number of pages is the count divided by the limit, rounded up. */
  function Paginate(page: int, limit: int, totalBooks: nat): (p: Pagination)
    requires limit != 0
    ensures p.currentPage == page && p.totalBooks == totalBooks
    ensures p.totalPages == CeilDiv(totalBooks, limit)
  {
    Pagination(page, CeilDiv(totalBooks, limit), totalBooks)
  }

  /** With a positive limit the pages partition the count: there are no pages
      exactly when there are no books, the last page starts before the count
      and every later page starts at or after it. */
  lemma PagesCoverCount(limit: int, totalBooks: nat, page: int)
    requires 0 < limit
    ensures var n := CeilDiv(totalBooks, limit);
      && (n == 0 <==> totalBooks == 0)
      && (n > 0 ==> Offset(n, limit) < totalBooks)
      && (page > n ==> Offset(page, limit) >= totalBooks)
  {
    var n := CeilDiv(totalBooks, limit);
    if page > n {
      MulMonotone(page - 1, n, limit);
    }
  }

  lemma MulMonotone(x: int, y: int, k: int)
    requires x >= y && k > 0
    ensures x * k >= y * k
  {
    assert x * k - y * k == (x - y) * k;
  }

  // ---------------------------------------------------------------------------
  // The list handler

  /** The COUNT query: the endpoint's tables, the WHERE list and its parameters. */
  datatype CountQuery = CountQuery(scope: Scope, where: seq<Predicate>, params: seq<Param>)

  /** The page query: the same WHERE list, the ORDER BY, and the parameters
      followed by LIMIT and OFFSET. */
  datatype DataQuery = DataQuery(scope: Scope, where: seq<Predicate>, sortColumn: string,
                                 direction: Direction, params: seq<Param>)

  /** `/books` answers a failed query with the error object; the user-scoped
      lists answer with an empty array. Both use status 500. */
  datatype FailureBody = ErrorObject | EmptyArray

  datatype ListResult<R> =
    | Listed(books: seq<R>, pagination: Pagination)
    | ListFailed(status: nat, body: FailureBody)

  /** One list request. The database is the two query callbacks (None = the
      query failed); the page query is only issued once the count succeeded. */
  method HandleList<R>(scope: Scope, raw: RawQuery,
                       count: CountQuery -> Option<nat>, fetch: DataQuery -> Option<seq<R>>)
    returns (countQuery: CountQuery, dataQuery: Option<DataQuery>, result: ListResult<R>)
    ensures var fs := Filters(scope, SearchText(raw.q), OrNull(raw.genre));
      countQuery == CountQuery(scope, Clauses(fs), Params(fs))
    ensures dataQuery.Some? <==> count(countQuery).Some?
    ensures dataQuery.Some? ==>
      var page, limit := ResolvePage(raw.page), ResolveLimit(raw.limit);
      && dataQuery.value.where == countQuery.where
      && dataQuery.value.params == countQuery.params + [IntArg(limit), IntArg(Offset(page, limit))]
      && dataQuery.value.sortColumn == ResolveSort(scope, raw.sort)
      && dataQuery.value.direction == ResolveOrder(scope, raw.order)
    ensures result.Listed? <==> dataQuery.Some? && fetch(dataQuery.value).Some?
    ensures result.Listed? ==>
      && result.books == fetch(dataQuery.value).value
      && result.pagination == Paginate(ResolvePage(raw.page), ResolveLimit(raw.limit), count(countQuery).value)
    ensures result.ListFailed? ==>
      result.status == 500 && result.body == (if scope.AllBooks? then ErrorObject else EmptyArray)
  {
    var q := SearchText(raw.q);
    var genre := OrNull(raw.genre);
    var page := ResolvePage(raw.page);
    var limit := ResolveLimit(raw.limit);
    var offset := Offset(page, limit);
    var sort := ResolveSort(scope, raw.sort);
    var order := ResolveOrder(scope, raw.order);
    var failure := if scope.AllBooks? then ErrorObject else EmptyArray;

    var clauses, params := BuildWhere(scope, q, genre);
    countQuery := CountQuery(scope, clauses, params);
    var counted := count(countQuery);
    if counted.None? {
      dataQuery := None;
      result := ListFailed(500, failure);
      return;
    }
    var totalBooks := counted.value;
    var totalPages := CeilDiv(totalBooks, limit);

    var dq := DataQuery(scope, clauses, sort, order, params + [IntArg(limit), IntArg(offset)]);
    dataQuery := Some(dq);
    var rows := fetch(dq);
    if rows.None? {
      result := ListFailed(500, failure);
      return;
    }
    result := Listed(rows.value, Pagination(page, totalPages, totalBooks));
  }
}
