# Book-catalog backend: list queries, personal library, owner check, import

A Dafny model of the logic in a small Express/MySQL book-catalog service:

- **List queries** (`ListQuery`, from `index.js`). The three list endpoints are `/books`, `/my-books` and `/reading-list`. Each turns its raw query parameters into a page, a limit and an offset, a whitelisted sort column and a direction. It builds a WHERE list of typed predicates with a parallel list of bound parameters, runs a COUNT query and a page query with that same list, and returns the page with `{currentPage, totalPages, totalBooks}`. The endpoint is a `Scope`: `AllBooks`, `MyBooks(user)` or `ReadingList(user)`.
- **Personal library** (`PersonalLibrary`, from `index.js`). The `user_books` and `reading_list` tables are keyed by (user, book). They live in a class `Library`, with a `set` for ownership rows and a `map` from key to the `currently_reading` flag. The class has the add, remove, lookup and create-book handlers, and the set-currently-reading transaction. That transaction runs its statements on a working copy, then commits the copy or discards it. Every mutating method keeps the invariant "at most one currently-reading row per user".
- **Book records** (`BookRecords`, from `index.js`): the row `POST /books` inserts and the values `PUT /books/:id` writes. Authors default to "Unknown". The cover source is "cloudinary" or "none". `COALESCE` keeps the stored cover.
- **Owner authorization** (`Authorization`, from `middleware/authorizeBookOwner.js`): maps a lookup result and the caller to 500, 404, allow or 403.
- **Import** (`Import`, from `scripts/importOpenLibrary.js`): maps CSV records to insert tuples and flushes them in batches of 200, then flushes the remainder.

Inputs from outside the model are parameters:
- the parsed query string, with `parseInt` already applied;
- the verified caller;
- every database answer: an error flag, a row count, an insert id, or the per-call answer function of the import;
- the cover upload result.

Behaviour of the code that the model keeps:
- order tokens are compared case-sensitively (`"desc"` and `"asc"` exactly);
- a negative `limit` passes through unchanged, and so does the offset it yields;
- a failed list query answers status 500, with the error object on `/books` and with `[]` on the scoped lists;
- when the target of set-currently-reading is missing from the reading list, the reply is the one for a failing set statement;
- editing and deleting a book are guarded only by the owner check, with no time window;
- the sort is on the single chosen column, with no secondary key.

## Model

| member | source | states |
|---|---|---|
| ListQuery.ResolvePage | index.js:54 | page is at least 1; missing, NaN, 0 or negative gives 1; any other value is kept |
| ListQuery.ResolveLimit | index.js:55 | limit is at most 50 and never 0; missing, NaN or 0 gives 20; above 50 gives 50; any other value, negatives included, is kept |
| ListQuery.DefaultSortColumn | index.js:139-144 | fallback column: `books.title` for `/books`, `user_books.added_at` for `/my-books`, `reading_list.added_at` for `/reading-list` |
| ListQuery.ResolveSort | index.js:59-64 | sort column is always a value of the endpoint's whitelist; a whitelisted key gives its column; any other key gives the default column |
| ListQuery.ResolveOrder | index.js:65 | `/books` sorts DESC iff order is exactly "desc"; the scoped lists (index.js:145, 304) sort ASC iff order is exactly "asc" |
| ListQuery.BuildWhere | index.js:147-156 | the clause and parameter lists grown by `push` are the two projections of the endpoint's predicate/parameter pairs |
| ListQuery.PlaceholdersMatchParams | index.js:68-76 | the number of `?` in the WHERE list equals the number of parameters, taking one `?` per predicate as given by the model |
| ListQuery.UserPredicateFirst | index.js:147-149 | scoped lists start with the user-id predicate bound to the caller; `/books` has no user-id predicate |
| ListQuery.GenreFilterIff | index.js:151-154 | the genre predicate is present iff a genre was given, and is then last, bound to that genre |
| ListQuery.WhereSelectsIntended | index.js:306-315 | with parameters bound by position, a row satisfies the WHERE list iff it is the caller's, its title matches `%q%`, and it has the genre when one is given |
| ListQuery.CeilDiv | index.js:111 | `Math.ceil(total / limit)` bounded from both sides for either sign of limit; 0 when total is 0 |
| ListQuery.Paginate | index.js:119-125 | metadata echoes the resolved page and the count; totalPages is the rounded-up quotient |
| ListQuery.PagesCoverCount | index.js:349-350 | for a positive limit: no pages iff no books; the last page starts before the count; every later page starts at or after it |
| ListQuery.HandleList | index.js:104-128 | count query uses the built WHERE list; page query is issued iff the count succeeded and reuses the same list, with params followed by limit and `Offset(page, limit)`, which is (page - 1) * limit as at index.js:56; failures answer 500 with the endpoint's body |
| ListQuery.PrototypeKeyEscapesWhitelist | index.js:64 | as written, `sort=constructor` resolves to an inherited function; the own-key resolution gives the default column |
| Authorization.Authorize | middleware/authorizeBookOwner.js:12-34 | lookup error gives 500 "Database error"; no row gives 404 "Book not found" for every caller; admin is allowed; a non-admin is allowed iff the book is user-created by them; otherwise 403 "You are not allowed to modify this book"; no other refusal exists |
| Authorization.UncreatedBooksAreAdminOnly | middleware/authorizeBookOwner.js:25-34 | a book without creator or not user-sourced is modifiable iff the caller is admin |
| BookRecords.CoverSourceFor | index.js:509 | "cloudinary" iff an upload URL exists, otherwise "none" |
| BookRecords.NewBook | index.js:494-533 | missing title gives 400; failed upload gives 500; otherwise the inserted row has authors defaulting to "Unknown", empty genre/description as NULL, source "user", creator the caller |
| BookRecords.BookUpdate | index.js:680-713 | update values shaped like creation; cover URL and source are given iff a file was uploaded; a failed upload gives no update |
| BookRecords.ApplyUpdate | index.js:693-703 | COALESCE keeps the stored cover when none is given; source and creator never change |
| BookRecords.UpdateKeepsCoverAndProvenance | index.js:683-713 | an edit without a file keeps the cover; an edit with one replaces it with a "cloudinary" cover; the source/creator invariant is kept |
| PersonalLibrary.AtMostOneCurrentIffCardinality | index.js:380-408 | the invariant holds iff no user has more than one flagged reading-list row |
| PersonalLibrary.InsertIgnoreRow | index.js:599-602 | adds the key; a new row starts unflagged; an existing row is left unchanged (so a second add changes nothing); the invariant is kept |
| PersonalLibrary.DeleteRow | index.js:658-661 | removes exactly that key; other rows keep their flags; the invariant is kept |
| PersonalLibrary.ResetFlags | index.js:381-385 | same rows; every row of the user is unflagged; other rows keep their flags |
| PersonalLibrary.MakeCurrentSpec | index.js:381-419 | after a committed transaction the user's only flagged row is the target; other users' rows are untouched; no row is added or removed; the invariant is kept |
| PersonalLibrary.Library.InMyBooks | index.js:248-267 | answers true with 200 iff the ownership row exists; false with 500 on a database error |
| PersonalLibrary.Library.InReadingList | index.js:269-288 | answers true with 200 iff the reading-list row exists; false with 500 on a database error |
| PersonalLibrary.Library.ReadingStatus | index.js:426-458 | inReadingList iff the row exists; currentlyReading iff it exists and is flagged; both false, with 500, on a database error |
| PersonalLibrary.Library.BookActions | index.js:460-490 | inMyBooks and inReadingList reflect the two tables; both false, with 500, on a database error |
| PersonalLibrary.Library.AddToMyBooks | index.js:568-589 | 400 when bookId is missing or 0; 500 leaves the tables as they were; 201 adds the ownership row, once |
| PersonalLibrary.Library.AddToReadingList | index.js:591-612 | 400 when bookId is missing or 0; 500 leaves the tables as they were; 201 applies INSERT IGNORE with an unflagged row; the invariant is kept |
| PersonalLibrary.Library.RemoveFromMyBooks | index.js:635-652 | 200 deletes exactly that ownership row; 500 changes nothing |
| PersonalLibrary.Library.RemoveFromReadingList | index.js:654-671 | 200 deletes exactly that reading-list row; 500 changes nothing; the invariant is kept |
| PersonalLibrary.Library.SetCurrentlyReading | index.js:370-424 | 200 iff no step fails and the target row exists, and then the state is the committed reset-and-set; any failure or missing target rolls back to the exact previous state, with that step's message |
| PersonalLibrary.Library.CreateBook | index.js:492-566 | rejected or failed inserts change nothing; a successful insert answers 201 with the new id and adds the creator's ownership row unless that insert fails (the failure is ignored) |
| Import.MapRow | scripts/importOpenLibrary.js:15-25 | each tuple has the nine insert columns, with cover_source and source "openlibrary" and created_by NULL |
| Import.MapRowMatchesColumns | scripts/importOpenLibrary.js:15-31 | each tuple position carries the CSV field for the column named at that position |
| Import.ImportedBooksAreAdminOnly | scripts/importOpenLibrary.js:21-24 | with the owner row read from the mapped tuple's source and NULL created_by, an imported book is allowed for admins only; every non-admin gets 403 |
| Import.InsertBatch | scripts/importOpenLibrary.js:11-40 | an empty list sends no insert; otherwise the result is the database's affected-row count or a failure |
| Import.InsertCallAnswers | scripts/importOpenLibrary.js:11-40 | on a non-empty batch, the call yields a count exactly when the database answers the insert |
| Import.Flush | scripts/importOpenLibrary.js:60-62 | the batch becomes the next insert call; the running total grows by that call's count when it succeeds |
| Import.Step | scripts/importOpenLibrary.js:56-67 | one loop pass: the read record joins the pending batch, which is flushed at 200; the batch, count and total bookkeeping is preserved, and a failed flush leaves the last call as the only failure |
| Import.BatchLoop | scripts/importOpenLibrary.js:55-68 | every flushed batch holds exactly 200 records; on success the read counter is the input length, flushed plus pending records are the input in order, and the total is the sum of the counts; on a failed flush the counter covers exactly the flushed records |
| Import.FinalFlush | scripts/importOpenLibrary.js:70-74 | the remainder is flushed only when non-empty; afterwards the batches partition the input into full batches and one remainder of the input length modulo 200 |
| Import.ImportBatches | scripts/importOpenLibrary.js:47-74 | the loop and the final flush together: no call is empty; when all succeed the read counter is the input length and the calls partition the input; a failure stops the import after that call, all earlier calls having held 200 records |
| Import.RunImport | scripts/importOpenLibrary.js:47-83 | no empty batch is ever flushed; on completion the batches concatenate to the input, the in-loop batches have exactly 200 rows, a final one holds the remainder, totalRead is the loop's counter and equals the row count, and totalInserted is the sum of the insert counts; a failed insert stops the import after that call, and every call before it held 200 records |

## Findings

| source | as written | input that shows it | evidently intended | confidence | as-written member | corrected member |
|---|---|---|---|---|---|---|
| index.js:64 | `SORT_MAP[req.query.sort]` also finds members inherited from `Object.prototype`, and such a value is truthy, so it replaces the default and reaches `ORDER BY` (same at index.js:144 and index.js:303) | `sort=constructor` | only the map's own keys select a column; any other key gives the default | not executed | ListQuery.ResolveSortAsWritten (shown by ListQuery.PrototypeKeyEscapesWhitelist) | ListQuery.ResolveSort |

## Left out

- `parseInt`: `page` and `limit` enter the model as already-parsed optional integers, where none means absent or NaN. Leading-digit parsing, radix prefixes and float precision are not modelled.
- Express routing, JSON serialisation, `console` logging and the mysql driver's callbacks. Replies are status/message values.
- SQL text and execution: the rendered WHERE string, `ORDER BY`, `COUNT(*)` and `LIMIT`/`OFFSET`. `LIKE` and `=` are abstract collation functions. User text containing `%` or `_` acts as a wildcard inside the pattern; the model leaves that behaviour inside the abstract `like`.
- The books table. `GET /books/:id`, `DELETE /books/:id` and `/genres` are plain single queries over it, and `Library` does not store book rows. `CreateBook` returns the row it would insert; `ApplyUpdate` works on a given row.
- User ids are integers on both sides. The strict `created_by === req.user.id` comparison fails when the two have different JavaScript types, and that case is not modelled.
- Path ids: the `:bookId` path parameter of the lookups, the removes and set-currently-reading is taken as an integer `book`. In the code it is the raw path string, which the database compares with the integer column; that string-to-integer comparison is not modelled.
- `user_books.status` is always 'owned', so ownership rows are a set. `added_at` timestamps are not modelled.
- PersonalLibrary.Library.AddToMyBooks / AddToReadingList: `bookId` from the JSON body is an optional integer, so a string id cannot be represented. In the code any non-empty string, `"0"` included, passes `!bookId` and is inserted with 201. The absent case covers a missing key, `null`, `false`, `""` and `NaN`, and `0` is rejected like them.
- Query-string arrays: the query parser can hand an array for a repeated or bracketed key. `sort[]=title` then finds `books.title` through the array's string conversion. An array `order` never equals the token, so `/books` sorts ascending and the scoped lists descending, whatever the array holds. An array `q` is joined with commas inside the pattern. The model takes each key as a single optional string.
- Authentication (verifyToken, the auth routes) and the Cloudinary upload. The caller and the upload outcome are inputs.
- Concurrency and isolation. The set-currently-reading transaction is one sequential step. A failing rollback callback is not modelled.
- Import I/O: the CSV stream, `fs`, `process.exit`, the progress log every 5000 rows and stream errors. The database is a function from (call number, tuples) to an optional affected-row count. A CSV header missing from a record reads as NULL.
