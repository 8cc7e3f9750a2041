/** The values `POST /books` inserts and `PUT /books/:id` writes, shaped from
    the submitted form and the optional cover upload. */
module BookRecords {
  import opened Common

  /** The text fields of the multipart form (`req.body`). */
  datatype BookForm = BookForm(title: Option<string>, authors: Option<string>,
                               desc: Option<string>, genre: Option<string>)

  /** The cover upload: no file sent, the URL the object store returned, or
      a failed upload (the handler's `catch`). */
  datatype Upload = NoFile | Uploaded(url: string) | UploadFailed

  /** A stored `books` row, restricted to the columns the handlers touch. */
  datatype BookRow = BookRow(
    title: Option<string>,
    authors: string,
    genre: Option<string>,
    description: Option<string>,
    coverSource: string,
    coverUrl: Option<string>,
    source: string,
    createdBy: Option<int>)

  /** A user-created book has a creator; an imported one has none. */
  predicate SourceConsistent(row: BookRow)
  {
    && (row.source == "user" ==> row.createdBy.Some?)
    && (row.source == "openlibrary" ==> row.createdBy.None?)
  }

  /** What `POST /books` does before the INSERT: reject, or the row it inserts. */
  datatype Creation = Rejected(status: nat, message: string) | Insert(row: BookRow)

  /** `coverUrl ? "cloudinary" : "none"` */
  function CoverSourceFor(url: Option<string>): (s: string)
    ensures s == "cloudinary" <==> Truthy(url)
    ensures s == "cloudinary" || s == "none"
  {
    if Truthy(url) then "cloudinary" else "none"
  }

  /** The row `POST /books` asks the database to insert for `user`. */
  function NewBook(form: BookForm, upload: Upload, user: int): (c: Creation)
    ensures !Truthy(form.title) ==> c == Rejected(400, "Title is required")
    ensures Truthy(form.title) && upload.UploadFailed? ==> c == Rejected(500, "Book creation failed")
    ensures c.Insert? <==> Truthy(form.title) && !upload.UploadFailed?
    ensures c.Insert? ==>
      && c.row.title == form.title
      && c.row.authors == OrElse(form.authors, "Unknown")
      && c.row.genre == OrNull(form.genre)
      && c.row.description == OrNull(form.desc)
      && c.row.coverUrl == (if upload.Uploaded? then Some(upload.url) else None)
      && (c.row.coverSource == "cloudinary" <==> upload.Uploaded? && upload.url != "")
      && c.row.source == "user"
      && c.row.createdBy == Some(user)
      && SourceConsistent(c.row)
  {
    if !Truthy(form.title) then Rejected(400, "Title is required")
    else if upload.UploadFailed? then Rejected(500, "Book creation failed")
    else
      var url := if upload.Uploaded? then Some(upload.url) else None;
      Insert(BookRow(form.title, OrElse(form.authors, "Unknown"), OrNull(form.genre), OrNull(form.desc),
                     CoverSourceFor(url), url, "user", Some(user)))
  }

  /** The values bound to the UPDATE; the two cover values are NULL when no
      file was sent, so that COALESCE keeps the stored ones. */
  datatype BookChanges = BookChanges(
    title: Option<string>,
    authors: string,
    genre: Option<string>,
    description: Option<string>,
    coverUrl: Option<string>,
    coverSource: Option<string>)

  /** `PUT /books/:id` before the UPDATE: None when the upload failed. The
      title is not validated here and is written as sent. */
  function BookUpdate(form: BookForm, upload: Upload): (ch: Option<BookChanges>)
    ensures ch.None? <==> upload.UploadFailed?
    ensures ch.Some? ==>
      && ch.value.title == form.title
      && ch.value.authors == OrElse(form.authors, "Unknown")
      && ch.value.genre == OrNull(form.genre)
      && ch.value.description == OrNull(form.desc)
      && (ch.value.coverUrl.Some? <==> upload.Uploaded?)
      && (ch.value.coverSource.Some? <==> upload.Uploaded?)
  {
    match upload
    case UploadFailed => None
    case NoFile =>
      Some(BookChanges(form.title, OrElse(form.authors, "Unknown"), OrNull(form.genre), OrNull(form.desc), None, None))
    case Uploaded(url) =>
      Some(BookChanges(form.title, OrElse(form.authors, "Unknown"), OrNull(form.genre), OrNull(form.desc),
                       Some(url), Some("cloudinary")))
  }

  /** SQL `COALESCE(given, stored)` for a NOT NULL column. */
  function Coalesce<T>(given: Option<T>, stored: T): T
  {
    if given.Some? then given.value else stored
  }

  /** The stored row after the UPDATE. */
  function ApplyUpdate(row: BookRow, ch: BookChanges): (r: BookRow)
    ensures r.title == ch.title && r.authors == ch.authors
    ensures r.genre == ch.genre && r.description == ch.description
    ensures ch.coverUrl.None? ==> r.coverUrl == row.coverUrl
    ensures ch.coverSource.None? ==> r.coverSource == row.coverSource
    ensures r.source == row.source && r.createdBy == row.createdBy
  {
    BookRow(ch.title, ch.authors, ch.genre, ch.description,
            Coalesce(ch.coverSource, row.coverSource),
            if ch.coverUrl.Some? then ch.coverUrl else row.coverUrl,
            row.source, row.createdBy)
  }

  /** An edit with no new cover keeps the stored cover; an edit with an
      uploaded cover replaces it. Provenance never changes, so the
      source/creator invariant is kept. */
  lemma UpdateKeepsCoverAndProvenance(row: BookRow, form: BookForm, upload: Upload)
    requires !upload.UploadFailed?
    ensures var r := ApplyUpdate(row, BookUpdate(form, upload).value);
      && (upload.NoFile? ==> r.coverUrl == row.coverUrl && r.coverSource == row.coverSource)
      && (upload.Uploaded? ==> r.coverUrl == Some(upload.url) && r.coverSource == "cloudinary")
      && (SourceConsistent(row) ==> SourceConsistent(r))
  {
  }
}
