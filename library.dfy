/** The personal-library tables `user_books` and `reading_list`, keyed by
    (user id, book id), and the handlers that add, remove, look up and flag
    their rows. Each SQL statement is one atomic step; database failures are
    parameters of the handlers. */
module PersonalLibrary {
  import opened Common
  import BookRecords

  /** The composite unique key of both link tables. */
  datatype Key = Key(user: int, book: int)

  // ---------------------------------------------------------------------------
  // The reading-list invariant

  /** At most one `currently_reading = true` row per user. */
  predicate AtMostOneCurrent(rl: map<Key, bool>)
  {
    forall k1, k2 :: k1 in rl && k2 in rl && rl[k1] && rl[k2] && k1.user == k2.user ==> k1 == k2
  }

  /** The user's rows whose flag is set. */
  function FlaggedFor(rl: map<Key, bool>, user: int): set<Key>
  {
    set k | k in rl && k.user == user && rl[k]
  }

  /** The invariant says exactly that no user has two flagged rows. */
  lemma AtMostOneCurrentIffCardinality(rl: map<Key, bool>)
    ensures AtMostOneCurrent(rl) <==> forall u :: |FlaggedFor(rl, u)| <= 1
  {
    if AtMostOneCurrent(rl) {
      forall u ensures |FlaggedFor(rl, u)| <= 1 {
        var f := FlaggedFor(rl, u);
        if f != {} {
          var x :| x in f;
          assert f == {x};
        }
      }
    } else {
      var k1, k2 :| k1 in rl && k2 in rl && rl[k1] && rl[k2] && k1.user == k2.user && k1 != k2;
      var f := FlaggedFor(rl, k1.user);
      assert {k1, k2} <= f;
      assert |f| == |f - {k1, k2}| + |{k1, k2}|;
      assert |FlaggedFor(rl, k1.user)| > 1;
    }
  }

  // ---------------------------------------------------------------------------
  // Single-statement transitions

  /** `INSERT IGNORE INTO reading_list ... VALUES (?, ?, 0)`. */
  function InsertIgnoreRow(rl: map<Key, bool>, k: Key): (r: map<Key, bool>)
    ensures r.Keys == rl.Keys + {k}
    ensures k in rl ==> r == rl
    ensures k !in rl ==> !r[k] && forall k' :: k' in rl ==> r[k'] == rl[k']
    ensures AtMostOneCurrent(rl) ==> AtMostOneCurrent(r)
  {
    if k in rl then rl else rl[k := false]
  }

  /** `DELETE FROM reading_list WHERE user_id = ? AND book_id = ?`. */
  function DeleteRow(rl: map<Key, bool>, k: Key): (r: map<Key, bool>)
    ensures r.Keys == rl.Keys - {k}
    ensures forall k' :: k' in r ==> r[k'] == rl[k']
    ensures AtMostOneCurrent(rl) ==> AtMostOneCurrent(r)
  {
    rl - {k}
  }

  /** `UPDATE reading_list SET currently_reading = 0 WHERE user_id = ?`. */
  function ResetFlags(rl: map<Key, bool>, user: int): (r: map<Key, bool>)
    ensures r.Keys == rl.Keys
    ensures forall k :: k in r ==> r[k] == (k.user != user && rl[k])
  {
    map k | k in rl :: if k.user == user then false else rl[k]
  }

  /** The committed effect of the set-currently-reading transaction: the reset
      followed by `SET currently_reading = 1 WHERE user_id = ? AND book_id = ?`. */
  function MakeCurrent(rl: map<Key, bool>, user: int, book: int): map<Key, bool>
    requires Key(user, book) in rl
  {
    ResetFlags(rl, user)[Key(user, book) := true]
  }

  /** After the transaction the target row is the user's only flagged row,
      other users' rows are untouched and no row was added or removed; the
      invariant is kept. */
  lemma MakeCurrentSpec(rl: map<Key, bool>, user: int, book: int)
    requires Key(user, book) in rl
    ensures var r := MakeCurrent(rl, user, book);
      && r.Keys == rl.Keys
      && FlaggedFor(r, user) == {Key(user, book)}
      && (forall k :: k in rl && k.user != user ==> r[k] == rl[k])
      && (AtMostOneCurrent(rl) ==> AtMostOneCurrent(r))
  {
  }

  // ---------------------------------------------------------------------------
  // Replies

  /** An HTTP status with the JSON string the handler sends. */
  datatype Reply = Reply(status: nat, message: string)

  /** An HTTP status with a JSON body. */
  datatype Answer<T> = Answer(status: nat, body: T)

  datatype StatusBody = StatusBody(inReadingList: bool, currentlyReading: bool)
  datatype ActionsBody = ActionsBody(inMyBooks: bool, inReadingList: bool)

  /** `if (!bookId)` on a JSON body field: absent, null and 0 are refused. */
  predicate BookIdGiven(bookId: Option<int>)
  {
    bookId.Some? && bookId.value != 0
  }

  /** Which statement of the set-currently-reading transaction fails, if any. */
  datatype TxFaults = TxFaults(begin: bool, reset: bool, setFlag: bool, commit: bool)

  /** The outcome of the database INSERT of a new book. */
  datatype BookInsert = InsertError(sqlMessage: string) | InsertedId(id: int)

  datatype CreateReply = CreateReply(status: nat, message: string, bookId: Option<int>)

  // ---------------------------------------------------------------------------
  // The tables

  class Library {
    /** `user_books` rows (status is always 'owned'). */
    var owned: set<Key>
    /** `reading_list` rows and their `currently_reading` flag. */
    var readingList: map<Key, bool>

    ghost predicate Valid()
      reads this
    {
      AtMostOneCurrent(readingList)
    }

    constructor ()
      ensures Valid() && owned == {} && readingList == map[]
    {
      owned := {};
      readingList := map[];
    }

    /** `GET /user-books/:bookId` */
    function InMyBooks(user: int, book: int, dbError: bool): (a: Answer<bool>)
      reads this
      ensures a.status == (if dbError then 500 else 200)
      ensures a.body <==> !dbError && Key(user, book) in owned
    {
      if dbError then Answer(500, false) else Answer(200, Key(user, book) in owned)
    }

    /** `GET /reading-list/:bookId` */
    function InReadingList(user: int, book: int, dbError: bool): (a: Answer<bool>)
      reads this
      ensures a.status == (if dbError then 500 else 200)
      ensures a.body <==> !dbError && Key(user, book) in readingList
    {
      if dbError then Answer(500, false) else Answer(200, Key(user, book) in readingList)
    }

    /** `GET /reading-list/:bookId/status` */
    function ReadingStatus(user: int, book: int, dbError: bool): (a: Answer<StatusBody>)
      reads this
      ensures a.status == (if dbError then 500 else 200)
      ensures a.body.inReadingList <==> !dbError && Key(user, book) in readingList
      ensures a.body.currentlyReading <==>
        !dbError && Key(user, book) in readingList && readingList[Key(user, book)]
    {
      var k := Key(user, book);
      if dbError then Answer(500, StatusBody(false, false))
      else if k !in readingList then Answer(200, StatusBody(false, false))
      else Answer(200, StatusBody(true, readingList[k]))
    }

    /** `GET /book-actions/:bookId` */
    function BookActions(user: int, book: int, dbError: bool): (a: Answer<ActionsBody>)
      reads this
      ensures a.status == (if dbError then 500 else 200)
      ensures a.body.inMyBooks <==> !dbError && Key(user, book) in owned
      ensures a.body.inReadingList <==> !dbError && Key(user, book) in readingList
    {
      if dbError then Answer(500, ActionsBody(false, false))
      else Answer(200, ActionsBody(Key(user, book) in owned, Key(user, book) in readingList))
    }

    /** `POST /user-books`: `INSERT IGNORE`, so adding twice keeps one row. */
    method AddToMyBooks(user: int, bookId: Option<int>, dbError: bool) returns (r: Reply)
      requires Valid()
      modifies this
      ensures Valid() && readingList == old(readingList)
      ensures r == (if !BookIdGiven(bookId) then Reply(400, "bookId is required")
                    else if dbError then Reply(500, "Failed to add to My Books")
                    else Reply(201, "Added to My Books"))
      ensures owned == (if r.status == 201 then old(owned) + {Key(user, bookId.value)} else old(owned))
    {
      if !BookIdGiven(bookId) {
        return Reply(400, "bookId is required");
      }
      if dbError {
        return Reply(500, "Failed to add to My Books");
      }
      owned := owned + {Key(user, bookId.value)};
      r := Reply(201, "Added to My Books");
    }

    /** `POST /reading-list`: `INSERT IGNORE` with the flag cleared. */
    method AddToReadingList(user: int, bookId: Option<int>, dbError: bool) returns (r: Reply)
      requires Valid()
      modifies this
      ensures Valid() && owned == old(owned)
      ensures r == (if !BookIdGiven(bookId) then Reply(400, "bookId is required")
                    else if dbError then Reply(500, "Failed to add to Reading List")
                    else Reply(201, "Added to Reading List"))
      ensures readingList == (if r.status == 201 then InsertIgnoreRow(old(readingList), Key(user, bookId.value))
                              else old(readingList))
    {
      if !BookIdGiven(bookId) {
        return Reply(400, "bookId is required");
      }
      if dbError {
        return Reply(500, "Failed to add to Reading List");
      }
      readingList := InsertIgnoreRow(readingList, Key(user, bookId.value));
      r := Reply(201, "Added to Reading List");
    }

    /** `DELETE /user-books/:bookId` */
    method RemoveFromMyBooks(user: int, book: int, dbError: bool) returns (r: Reply)
      requires Valid()
      modifies this
      ensures Valid() && readingList == old(readingList)
      ensures r == (if dbError then Reply(500, "Failed to remove from My Books")
                    else Reply(200, "Removed from My Books"))
      ensures owned == (if dbError then old(owned) else old(owned) - {Key(user, book)})
    {
      if dbError {
        return Reply(500, "Failed to remove from My Books");
      }
      owned := owned - {Key(user, book)};
      r := Reply(200, "Removed from My Books");
    }

    /** `DELETE /reading-list/:bookId` */
    method RemoveFromReadingList(user: int, book: int, dbError: bool) returns (r: Reply)
      requires Valid()
      modifies this
      ensures Valid() && owned == old(owned)
      ensures r == (if dbError then Reply(500, "Failed to remove from Reading List")
                    else Reply(200, "Removed from Reading List"))
      ensures readingList == (if dbError then old(readingList) else DeleteRow(old(readingList), Key(user, book)))
    {
      if dbError {
        return Reply(500, "Failed to remove from Reading List");
      }
      readingList := DeleteRow(readingList, Key(user, book));
      r := Reply(200, "Removed from Reading List");
    }

    /** `PUT /reading-list/:bookId/current`: reset every flag of the user, set
        the target's, commit. The statements run against a working copy that
        is committed only when every step succeeded and the target row
        existed; otherwise it is rolled back (discarded). */
    method SetCurrentlyReading(user: int, book: int, faults: TxFaults) returns (r: Reply)
      requires Valid()
      modifies this
      ensures Valid() && owned == old(owned)
      ensures r.status == 200 <==>
        !faults.begin && !faults.reset && !faults.setFlag && !faults.commit && Key(user, book) in old(readingList)
      ensures r.status == 200 ==>
        r.message == "Currently reading updated" && readingList == MakeCurrent(old(readingList), user, book)
      ensures r.status != 200 ==> r.status == 500 && readingList == old(readingList)
      ensures r.status != 200 ==>
        r.message == (if faults.begin then "Transaction failed"
         else if faults.reset then "Failed to reset reading state"
         else if faults.setFlag || Key(user, book) !in old(readingList) then "Failed to set current book"
         else "Commit failed")
    {
      if faults.begin {
        return Reply(500, "Transaction failed");
      }
      var working := readingList;
      if faults.reset {
        return Reply(500, "Failed to reset reading state");
      }
      working := ResetFlags(working, user);
      var affectedRows := if Key(user, book) in working then 1 else 0;
      if faults.setFlag || affectedRows == 0 {
        return Reply(500, "Failed to set current book");
      }
      working := working[Key(user, book) := true];
      if faults.commit {
        return Reply(500, "Commit failed");
      }
      MakeCurrentSpec(readingList, user, book);
      readingList := working;
      r := Reply(200, "Currently reading updated");
    }

    /** `POST /books`: shape and insert the book, then record the creator's
        ownership. A failed ownership insert is logged and ignored; the reply
        is the same. */
    method CreateBook(user: int, form: BookRecords.BookForm, upload: BookRecords.Upload,
                      insert: BookInsert, ownershipError: bool)
      returns (r: CreateReply, inserted: Option<BookRecords.BookRow>)
      requires Valid()
      modifies this
      ensures Valid() && readingList == old(readingList)
      ensures var c := BookRecords.NewBook(form, upload, user);
        match c
        case Rejected(status, message) =>
          r == CreateReply(status, message, None) && inserted.None? && owned == old(owned)
        case Insert(row) =>
          match insert
          case InsertError(msg) =>
            r == CreateReply(500, msg, None) && inserted.None? && owned == old(owned)
          case InsertedId(id) =>
            && r == CreateReply(201, "Book created successfully", Some(id))
            && inserted == Some(row)
            && owned == (if ownershipError then old(owned) else old(owned) + {Key(user, id)})
    {
      var c := BookRecords.NewBook(form, upload, user);
      if c.Rejected? {
        return CreateReply(c.status, c.message, None), None;
      }
      if insert.InsertError? {
        return CreateReply(500, insert.sqlMessage, None), None;
      }
      inserted := Some(c.row);
      if !ownershipError {
        owned := owned + {Key(user, insert.id)};
      }
      r := CreateReply(201, "Book created successfully", Some(insert.id));
    }
  }
}
