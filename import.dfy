/** The Open Library bulk import: CSV records are mapped to `books` tuples and
    inserted with `INSERT IGNORE` in batches of 200, with a final flush of the
    remainder. The CSV stream is a sequence of records and the database is a
    function answering each insert call. */
module Import {
  import opened Common
  import Authorization

  const BatchSize: nat := 200

  /** A parsed CSV record: header name to cell text. */
  type CsvRow = map<string, string>

  /** A bound SQL value. */
  datatype SqlValue = Null | Text(s: string) | Int(n: int)

  /** The column list of the INSERT, in order. */
  const InsertColumns: seq<string> :=
    ["work_key", "title", "authors", "description", "genre", "cover_source", "cover_id", "source", "created_by"]

  /** `row.<name>`: a header the file does not have reads as `undefined`,
      which the driver binds as NULL. */
  function Field(row: CsvRow, name: string): SqlValue
  {
    if name in row then Text(row[name]) else Null
  }

  /** The reference for what each `books` column receives from a record. */
  function ColumnValue(row: CsvRow, column: string): SqlValue
  {
    match column
    case "work_key" => Field(row, "work_key")
    case "title" => Field(row, "title")
    case "authors" => Field(row, "author_name")
    case "description" => Field(row, "description")
    case "genre" => Field(row, "genre")
    case "cover_source" => Text("openlibrary")
    case "cover_id" => Field(row, "cover_id")
    case "source" => Text("openlibrary")
    case _ => Null
  }

  /** The tuple `insertBatch` builds for one record. */
  function MapRow(row: CsvRow): (t: seq<SqlValue>)
    ensures |t| == |InsertColumns|
    ensures t[5] == Text("openlibrary") && t[7] == Text("openlibrary") && t[8] == Null
  {
    [Field(row, "work_key"), Field(row, "title"), Field(row, "author_name"), Field(row, "description"),
     Field(row, "genre"), Text("openlibrary"), Field(row, "cover_id"), Text("openlibrary"), Null]
  }

  /** The tuple's positions agree with the INSERT's column list: every
      column receives the value meant for it. */
  lemma MapRowMatchesColumns(row: CsvRow)
    ensures forall i :: 0 <= i < |InsertColumns| ==> MapRow(row)[i] == ColumnValue(row, InsertColumns[i])
  {
  }

  /** The owner columns of an imported book, as the authorization lookup reads them. */
  function ImportedOwner(row: CsvRow): Authorization.OwnerRow
  {
    var t := MapRow(row);
    Authorization.OwnerRow(if t[7].Text? then t[7].s else "", if t[8].Int? then Some(t[8].n) else None)
  }

  /** An imported book is never modifiable by a non-admin: the NULL bound to
      `created_by` leaves the owner check nothing to match. */
  lemma ImportedBooksAreAdminOnly(row: CsvRow, caller: Authorization.Caller)
    ensures var d := Authorization.Authorize(Authorization.Found([ImportedOwner(row)]), caller);
      (d == Authorization.Allow <==> caller.role == "admin")
      && (caller.role != "admin" ==> d == Authorization.Refuse(403, "You are not allowed to modify this book"))
  {
  }

  function MapRows(rows: seq<CsvRow>): (ts: seq<seq<SqlValue>>)
    ensures |ts| == |rows| && forall i :: 0 <= i < |rows| ==> ts[i] == MapRow(rows[i])
  {
    seq(|rows|, i requires 0 <= i < |rows| => MapRow(rows[i]))
  }

  /** The database's answer to its k-th multi-row insert: the affected row
      count, or None when the query fails. */
  type Database = (nat, seq<seq<SqlValue>>) -> Option<nat>

  /** What `insertBatch` resolves to: nothing for an empty list (no query is
      sent), the affected row count, or a rejection. */
  datatype BatchResult = Skipped | Inserted(count: nat) | InsertFailed

  function InsertBatch(db: Database, call: nat, rows: seq<CsvRow>): (r: BatchResult)
    ensures r.Skipped? <==> |rows| == 0
    ensures |rows| > 0 ==> (r.InsertFailed? <==> db(call, MapRows(rows)).None?)
    ensures r.Inserted? ==> r.count == db(call, MapRows(rows)).value
  {
    if |rows| == 0 then Skipped
    else match db(call, MapRows(rows))
      case None => InsertFailed
      case Some(n) => Inserted(n)
  }

  /** The `insertBatch` calls of one import run against `db`. */
  function InsertCall(db: Database): (nat, seq<CsvRow>) -> BatchResult
  {
    (call: nat, rows: seq<CsvRow>) => InsertBatch(db, call, rows)
  }

  /** A call on a non-empty batch succeeds exactly when the database answers. */
  lemma InsertCallAnswers(db: Database, batches: seq<seq<CsvRow>>)
    requires forall j :: 0 <= j < |batches| ==> |batches[j]| > 0
    ensures forall j :: 0 <= j < |batches| ==>
      (InsertCall(db)(j, batches[j]).Inserted? <==> db(j, MapRows(batches[j])).Some?)
  {
    forall j | 0 <= j < |batches|
      ensures InsertCall(db)(j, batches[j]).Inserted? <==> db(j, MapRows(batches[j])).Some?
    {
      var r := InsertBatch(db, j, batches[j]);
      assert InsertCall(db)(j, batches[j]) == r;
    }
  }

  // ---------------------------------------------------------------------------
  // The batching loop, independent of what a record is

  /** The records of the batches, in order. */
  function Concat<T>(batches: seq<seq<T>>): seq<T>
  {
    if batches == [] then [] else Concat(batches[..|batches| - 1]) + batches[|batches| - 1]
  }

  function CountOf(r: BatchResult): nat
  {
    if r.Inserted? then r.count else 0
  }

  /** Sum of the counts returned by the calls made with the given batches;
      the k-th batch is the k-th call. */
  function SumInserted<T>(insert: (nat, seq<T>) -> BatchResult, batches: seq<seq<T>>): nat
  {
    if batches == [] then 0
    else SumInserted(insert, batches[..|batches| - 1]) + CountOf(insert(|batches| - 1, batches[|batches| - 1]))
  }

  /** Every call returned an insert count. */
  predicate AllInserted<T>(insert: (nat, seq<T>) -> BatchResult, batches: seq<seq<T>>)
  {
    forall j :: 0 <= j < |batches| ==> insert(j, batches[j]).Inserted?
  }

  /** The calls made before the last one succeeded and the last one did not. */
  predicate FailedLast<T>(insert: (nat, seq<T>) -> BatchResult, batches: seq<seq<T>>)
  {
    && |batches| > 0
    && (forall j :: 0 <= j < |batches| - 1 ==> insert(j, batches[j]).Inserted?)
    && !insert(|batches| - 1, batches[|batches| - 1]).Inserted?
  }

  /** The two totals the import logs before `process.exit(0)`, or the
      `catch` that ends it with `process.exit(1)`. */
  datatype ImportOutcome = Completed(totalRead: nat, totalInserted: nat) | Aborted

  lemma DivModOf(n: nat, q: nat, r: nat)
    requires n == q * BatchSize + r && r < BatchSize
    ensures n / BatchSize == q && n % BatchSize == r
  {
  }

  /** One `insertBatch` call with the next batch and the counter update that
      follows it: the batch is recorded as the next call, and its count is
      added when the call succeeded. */
  method Flush<T>(insert: (nat, seq<T>) -> BatchResult, batches: seq<seq<T>>, batch: seq<T>, totalInserted: nat)
    returns (calls: seq<seq<T>>, total: nat, inserted: bool)
    ensures calls == batches + [batch] && calls[..|batches|] == batches
    ensures Concat(calls) == Concat(batches) + batch
    ensures inserted <==> insert(|batches|, batch).Inserted?
    ensures inserted ==> total == totalInserted + insert(|batches|, batch).count
    ensures totalInserted == SumInserted(insert, batches) && inserted ==> total == SumInserted(insert, calls)
    ensures AllInserted(insert, batches) && inserted ==> AllInserted(insert, calls)
  {
    var result := insert(|batches|, batch);
    calls := batches + [batch];
    assert calls[..|batches|] == batches;
    inserted := result.Inserted?;
    total := if inserted then totalInserted + result.count else totalInserted;
  }

  /** What holds after the first `read` records have gone through the loop
      and every call so far succeeded. */
  ghost predicate Batched<T>(rows: seq<T>, read: nat, insert: (nat, seq<T>) -> BatchResult,
                       batches: seq<seq<T>>, batch: seq<T>, totalInserted: nat)
  {
    && read <= |rows|
    && Concat(batches) + batch == rows[..read]
    && read == |batches| * BatchSize + |batch| && |batch| < BatchSize
    && (forall j :: 0 <= j < |batches| ==> |batches[j]| == BatchSize)
    && AllInserted(insert, batches)
    && totalInserted == SumInserted(insert, batches)
  }

  /** One iteration of the loop: the next record joins the pending batch,
      which is flushed when it reaches 200 records. */
  method Step<T>(rows: seq<T>, read: nat, insert: (nat, seq<T>) -> BatchResult,
                 batches: seq<seq<T>>, batch: seq<T>, totalInserted: nat)
    returns (batches': seq<seq<T>>, batch': seq<T>, totalInserted': nat, inserted: bool)
    requires read < |rows| && Batched(rows, read, insert, batches, batch, totalInserted)
    ensures inserted ==> Batched(rows, read + 1, insert, batches', batch', totalInserted')
    ensures !inserted ==>
      && (forall j :: 0 <= j < |batches'| ==> |batches'[j]| == BatchSize)
      && Concat(batches') == rows[..read + 1] && FailedLast(insert, batches')
  {
    assert rows[..read + 1] == rows[..read] + [rows[read]];
    batch' := batch + [rows[read]];
    batches', totalInserted', inserted := batches, totalInserted, true;
    if |batch'| >= BatchSize {
      batches', totalInserted', inserted := Flush(insert, batches, batch', totalInserted);
      assert Concat(batches') + [] == rows[..read + 1];
      if !inserted {
        assert forall j :: 0 <= j < |batches'| - 1 ==> batches'[j] == batches[j];
      }
      batch' := [];
    }
  }

  /** The `for await` loop of `runImport`: records are appended to the
      pending batch, which is flushed whenever it reaches 200 records. When
      every call succeeds, the flushed batches followed by the pending one
      are the input; when a call fails the loop stops after it, having read
      exactly the records of the batches flushed so far. */
  method BatchLoop<T>(rows: seq<T>, insert: (nat, seq<T>) -> BatchResult)
    returns (batches: seq<seq<T>>, batch: seq<T>, totalRead: nat, totalInserted: nat, inserted: bool)
    ensures forall j :: 0 <= j < |batches| ==> |batches[j]| == BatchSize
    ensures inserted ==>
      && totalRead == |rows|
      && Concat(batches) + batch == rows
      && |rows| == |batches| * BatchSize + |batch| && |batch| < BatchSize
      && AllInserted(insert, batches)
      && totalInserted == SumInserted(insert, batches)
    ensures !inserted ==>
      && totalRead <= |rows| && Concat(batches) == rows[..totalRead]
      && FailedLast(insert, batches)
  {
    batch := [];
    totalInserted := 0;
    batches := [];
    inserted := true;
    totalRead := 0;
    while totalRead < |rows|
      invariant Batched(rows, totalRead, insert, batches, batch, totalInserted)
    {
      batches, batch, totalInserted, inserted := Step(rows, totalRead, insert, batches, batch, totalInserted);
      totalRead := totalRead + 1;
      if !inserted {
        return;
      }
    }
    assert rows[..totalRead] == rows;
  }

  /** Counting the records by batches: `q` full batches and `r` left over. */
  predicate Shaped<T>(rows: seq<T>, batches: seq<seq<T>>)
  {
    && |batches| == |rows| / BatchSize + (if |rows| % BatchSize == 0 then 0 else 1)
    && (forall j :: 0 <= j < |rows| / BatchSize ==> |batches[j]| == BatchSize)
    && (|rows| % BatchSize != 0 ==> |batches[|batches| - 1]| == |rows| % BatchSize)
  }

  /** The end of `runImport` after the loop: the remainder, when there is
      one, is flushed as a last call. */
  method FinalFlush<T>(rows: seq<T>, insert: (nat, seq<T>) -> BatchResult,
                       batches: seq<seq<T>>, batch: seq<T>, totalInserted: nat)
    returns (calls: seq<seq<T>>, total: nat, completed: bool)
    requires forall j :: 0 <= j < |batches| ==> |batches[j]| == BatchSize
    requires Concat(batches) + batch == rows
    requires |rows| == |batches| * BatchSize + |batch| && |batch| < BatchSize
    requires AllInserted(insert, batches)
    requires totalInserted == SumInserted(insert, batches)
    ensures forall j :: 0 <= j < |calls| ==> 0 < |calls[j]| <= BatchSize
    ensures completed ==>
      && Concat(calls) == rows
      && Shaped(rows, calls)
      && AllInserted(insert, calls)
      && total == SumInserted(insert, calls)
    ensures !completed ==>
      && Concat(calls) == rows && FailedLast(insert, calls)
      && forall j :: 0 <= j < |calls| - 1 ==> |calls[j]| == BatchSize
  {
    DivModOf(|rows|, |batches|, |batch|);
    if |batch| == 0 {
      return batches, totalInserted, true;
    }
    calls, total, completed := Flush(insert, batches, batch, totalInserted);
    assert forall j :: 0 <= j < |calls| - 1 ==> calls[j] == batches[j];
  }

  /** The whole batching of `runImport`, independent of what a record is:
      the loop followed by the final flush of a non-empty remainder. */
  method ImportBatches<T>(rows: seq<T>, insert: (nat, seq<T>) -> BatchResult)
    returns (batches: seq<seq<T>>, totalRead: nat, totalInserted: nat, completed: bool)
    ensures forall j :: 0 <= j < |batches| ==> 0 < |batches[j]| <= BatchSize
    ensures completed ==>
      && totalRead == |rows|
      && Concat(batches) == rows
      && Shaped(rows, batches)
      && AllInserted(insert, batches)
      && totalInserted == SumInserted(insert, batches)
    ensures !completed ==>
      && Concat(batches) <= rows && FailedLast(insert, batches)
      && forall j :: 0 <= j < |batches| - 1 ==> |batches[j]| == BatchSize
  {
    var batch, loopCompleted;
    batches, batch, totalRead, totalInserted, loopCompleted := BatchLoop(rows, insert);
    if !loopCompleted {
      assert rows[..totalRead] <= rows;
      return batches, totalRead, totalInserted, false;
    }
    batches, totalInserted, completed := FinalFlush(rows, insert, batches, batch, totalInserted);
  }

  // ---------------------------------------------------------------------------
  // The import

  /** `runImport`. `batches` are the arguments of the `insertBatch` calls, in
      order; none is empty. On completion they partition the input: the
      ones flushed inside the loop hold exactly 200 records and a final one
      holds the remainder; `totalRead` is the number of records and
      `totalInserted` the sum of the counts the calls returned. A failed
      insert ends the import after that call. */
  method RunImport(rows: seq<CsvRow>, db: Database)
    returns (batches: seq<seq<CsvRow>>, outcome: ImportOutcome)
    ensures forall j :: 0 <= j < |batches| ==> 0 < |batches[j]| <= BatchSize
    ensures outcome.Completed? ==>
      && Concat(batches) == rows
      && Shaped(rows, batches)
      && (forall j :: 0 <= j < |batches| ==> db(j, MapRows(batches[j])).Some?)
      && outcome.totalRead == |rows|
      && outcome.totalInserted == SumInserted(InsertCall(db), batches)
    ensures outcome.Aborted? ==>
      && |batches| > 0
      && Concat(batches) <= rows
      && (forall j :: 0 <= j < |batches| - 1 ==> |batches[j]| == BatchSize)
      && (forall j :: 0 <= j < |batches| - 1 ==> db(j, MapRows(batches[j])).Some?)
      && db(|batches| - 1, MapRows(batches[|batches| - 1])).None?
  {
    var totalRead, totalInserted, completed;
    batches, totalRead, totalInserted, completed := ImportBatches(rows, InsertCall(db));
    InsertCallAnswers(db, batches);
    outcome := if completed then Completed(totalRead, totalInserted) else Aborted;
  }
}
