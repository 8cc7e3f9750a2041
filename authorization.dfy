/** The `authorizeBookOwner` middleware guarding `PUT /books/:id` and
    `DELETE /books/:id`, with its database lookup passed in as a value. */
module Authorization {
  import opened Common

  /** The two columns the middleware selects for the book. */
  datatype OwnerRow = OwnerRow(source: string, createdBy: Option<int>)

  /** Outcome of `SELECT source, created_by FROM books WHERE id = ?`. */
  datatype Lookup = LookupFailed | Found(rows: seq<OwnerRow>)

  /** The verified identity attached to the request. */
  datatype Caller = Caller(id: int, role: string)

  /** What the middleware does: call `next()`, or answer with a status and
      a JSON string body. */
  datatype Decision = Allow | Refuse(status: nat, message: string)

  predicate IsAdmin(caller: Caller)
  {
    caller.role == "admin"
  }

  /** A user-created book whose creator is the caller. */
  predicate OwnedBy(row: OwnerRow, caller: Caller)
  {
    row.source == "user" && row.createdBy == Some(caller.id)
  }

  /** The guarded early returns of the middleware, in order: lookup error,
      no row, admin, owner of a user-created book, everyone else. */
  function Authorize(lookup: Lookup, caller: Caller): (d: Decision)
    ensures d.Refuse? ==> d.status in {500, 404, 403}
    ensures d == Refuse(500, "Database error") <==> lookup.LookupFailed?
    ensures d == Refuse(404, "Book not found") <==> lookup.Found? && |lookup.rows| == 0
    ensures lookup.Found? && |lookup.rows| > 0 && IsAdmin(caller) ==> d == Allow
    ensures lookup.Found? && |lookup.rows| > 0 && !IsAdmin(caller) ==>
      (d == Allow <==> OwnedBy(lookup.rows[0], caller))
    ensures d == Refuse(403, "You are not allowed to modify this book") <==>
      lookup.Found? && |lookup.rows| > 0 && !IsAdmin(caller) && !OwnedBy(lookup.rows[0], caller)
  {
    match lookup
    case LookupFailed => Refuse(500, "Database error")
    case Found(rows) =>
      if |rows| == 0 then Refuse(404, "Book not found")
      else if IsAdmin(caller) then Allow
      else if OwnedBy(rows[0], caller) then Allow
      else Refuse(403, "You are not allowed to modify this book")
  }

  /** A book with no `created_by`, such as an imported one, can only be
      modified by an admin. */
  lemma UncreatedBooksAreAdminOnly(row: OwnerRow, caller: Caller)
    requires row.createdBy.None? || row.source != "user"
    ensures Authorize(Found([row]), caller) == Allow <==> IsAdmin(caller)
  {
  }
}
