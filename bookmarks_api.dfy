/** The list/create route of the HTTP API: GET lists the caller's bookmarks, POST creates one.
    Both check, in this order, the session user (401), for POST the body (400), the store (500),
    and then answer 200 or 201. */
module BookmarksApi {
  import opened Wrappers
  import opened JsString
  import opened Url
  import opened Bookmarks

  const UnauthorizedMessage := "Unauthorized"
  const InvalidBodyMessage := "Title and a valid URL are required."
  const LoadFailedMessage := "Failed to load bookmarks."
  const SaveFailedMessage := "Failed to save bookmark."

  /** The JSON body of a response. */
  datatype Body = ErrorBody(error: string) | ListBody(bookmarks: seq<Bookmark>) | CreatedBody(bookmark: Bookmark)

  /** `NextResponse.json(body, { status })`, or a handler that threw (the framework then answers
      with its own error page, which is not part of this model). */
  datatype Response = Json(status: int, body: Body) | Thrown

  /** The authenticated user of the request's session, if any (`supabase.auth.getUser()`). */
  type SessionUser = Option<string>

  /** The `bookmarks` table as the query sees it, or a store error. */
  datatype TableRead = ReadFailed | Table(rows: seq<Row>)

  /** A property of the request body: absent (`undefined` or `null`), a string, or a JSON value of
      another type, with its JavaScript truthiness. */
  datatype Field = Absent | Text(text: string) | NonText(truthy: bool)

  /** `await request.json().catch(() => null)`: `Unreadable` when the body is not JSON, is `null`,
      or is not an object; otherwise the two properties the handler reads. */
  datatype PostBody = Unreadable | Payload(title: Field, url: Field)

  /** The row POST asks the store to insert. */
  datatype NewRow = NewRow(title: string, url: string, userId: string)

  /** What POST answers, and the insert it issued, if any. */
  datatype PostOutcome = PostOutcome(response: Response, inserted: Option<NewRow>)

  /** The store's answer to an insert: the inserted row as selected back, or None on error. */
  type Insert = NewRow -> Option<Bookmark>

  /** GET /api/bookmarks. */
  function Get(user: SessionUser, table: TableRead): (r: Response)
    ensures user.None? ==> r == Json(401, ErrorBody(UnauthorizedMessage))
    ensures user.Some? && table.ReadFailed? ==> r == Json(500, ErrorBody(LoadFailedMessage))
    ensures user.Some? && table.Table? ==> r.Json? && r.status == 200 && r.body.ListBody?
    ensures user.Some? && table.Table? ==>
      exists rows :: && NewestFirst(rows)
                     && multiset(rows) == multiset(OwnedBy(table.rows, user.value))
                     && r.body.bookmarks == SelectAll(rows)
  {
    match user
    case None => Json(401, ErrorBody(UnauthorizedMessage))
    case Some(id) =>
      match table
      case ReadFailed => Json(500, ErrorBody(LoadFailedMessage))
      case Table(rows) =>
        var listed := ListRows(rows, id);
        Json(200, ListBody(SelectAll(listed)))
  }

  /** Every bookmark GET returns is the projection of one of the caller's rows, and every row of
      the caller is returned. */
  lemma GetListsExactlyOwnRows(id: string, rows: seq<Row>)
    ensures Get(Some(id), Table(rows)).body.ListBody?
    ensures forall b :: b in Get(Some(id), Table(rows)).body.bookmarks <==> IsOwnBookmark(rows, id, b)
  {
    var listed := ListRows(rows, id);
    assert Get(Some(id), Table(rows)).body.bookmarks == SelectAll(listed);
    ProjectsOwnRows(rows, id, listed);
  }

  /** A list holding exactly the rows of `id` projects to exactly the bookmarks of `id`. */
  lemma ProjectsOwnRows(rows: seq<Row>, id: string, listed: seq<Row>)
    requires forall x :: x in listed <==> x in rows && x.userId == id
    ensures forall b :: b in SelectAll(listed) <==> IsOwnBookmark(rows, id, b)
  {
    var bs := SelectAll(listed);
    forall b | b in bs ensures IsOwnBookmark(rows, id, b) {
      var k :| 0 <= k < |bs| && bs[k] == b;
      assert listed[k] in listed;
    }
    forall b | IsOwnBookmark(rows, id, b) ensures b in bs {
      var x :| x in rows && x.userId == id && b == Select(x);
      assert x in listed;
      var k :| 0 <= k < |listed| && listed[k] == x;
      assert bs[k] == b;
    }
  }

  /** `b` is the projection of a row of `id`. */
  ghost predicate IsOwnBookmark(rows: seq<Row>, id: string, b: Bookmark) {
    exists x :: x in rows && x.userId == id && b == Select(x)
  }

  /** `payload?.title?.trim()`: None is a falsy `undefined`; a non-string title throws. */
  function ReadTitle(body: PostBody): Result<Option<string>, ()> {
    match body
    case Unreadable => Success(None)
    case Payload(title, _) =>
      match title
      case Absent => Success(None)
      case Text(s) => Success(Some(Trim(s)))
      case NonText(_) => Failure(())
  }

  /** `payload?.url ? normalizeUrl(payload.url) : null`: a truthy non-string url throws inside
      normalizeUrl. */
  function ReadUrl(body: PostBody, parse: UrlParser): Result<Option<string>, ()> {
    match body
    case Unreadable => Success(None)
    case Payload(_, url) =>
      match url
      case Absent => Success(None)
      case Text(s) => if s == "" then Success(None) else Success(NormalizeUrl(s, parse))
      case NonText(truthy) => if truthy then Failure(()) else Success(None)
  }

  /** POST /api/bookmarks. */
  function Post(user: SessionUser, body: PostBody, parse: UrlParser, insert: Insert): (r: PostOutcome)
    ensures user.None? ==> r == PostOutcome(Json(401, ErrorBody(UnauthorizedMessage)), None)
    ensures r.inserted.Some? ==> user.Some? && r.inserted.value.userId == user.value
    ensures r.response.Json? && r.response.status == 201 ==>
      r.inserted.Some? && insert(r.inserted.value).Some? &&
      r.response.body == CreatedBody(insert(r.inserted.value).value)
  {
    if user.None? then PostOutcome(Json(401, ErrorBody(UnauthorizedMessage)), None)
    else
      var title := ReadTitle(body);
      var url := ReadUrl(body, parse);
      if title.Failure? || url.Failure? then PostOutcome(Thrown, None)
      else if !IsTruthy(title.value) || !IsTruthy(url.value) then
        PostOutcome(Json(400, ErrorBody(InvalidBodyMessage)), None)
      else
        Store(NewRow(title.value.value, url.value.value, user.value), insert)
  }

  /** The insert of a validated row, answered 201 with the stored row or 500 when it fails. */
  function Store(row: NewRow, insert: Insert): PostOutcome {
    match insert(row)
    case None => PostOutcome(Json(500, ErrorBody(SaveFailedMessage)), Some(row))
    case Some(saved) => PostOutcome(Json(201, CreatedBody(saved)), Some(row))
  }

  /** The user is checked before the body is read: without a session, neither the body, the
      parser nor the store affects the answer. */
  lemma PostChecksUserFirst(b1: PostBody, b2: PostBody, p1: UrlParser, p2: UrlParser, i1: Insert, i2: Insert)
    ensures Post(None, b1, p1, i1) == Post(None, b2, p2, i2)
    ensures Post(None, b1, p1, i1).response.status == 401
  {
  }

  /** A string title that trims to nothing, or a url that is missing, falsy or does not normalise
      (to a non-empty string), is answered 400 and nothing is inserted, as long as the url is not
      a truthy non-string, which makes normalizeUrl throw before the check. */
  lemma PostRejectsInvalidBody(id: string, title: string, url: Field, parse: UrlParser, insert: Insert)
    requires !(url.NonText? && url.truthy)
    requires Trim(title) == [] || !url.Text? || !IsTruthy(NormalizeUrl(url.text, parse))
    ensures Post(Some(id), Payload(Text(title), url), parse, insert) ==
      PostOutcome(Json(400, ErrorBody(InvalidBodyMessage)), None)
  {
    var body := Payload(Text(title), url);
    assert ReadTitle(body) == Success(Some(Trim(title)));
    if url.Absent? || url.NonText? {
      assert ReadUrl(body, parse) == Success(None);
    } else {
      assert ReadUrl(body, parse).Success?;
    }
  }

  /** A body that is not a JSON object, or has no title (undefined or null), is answered 400 and
      nothing is inserted, as long as the url is not a truthy non-string. */
  lemma PostRejectsMissingTitle(id: string, body: PostBody, parse: UrlParser, insert: Insert)
    requires body.Unreadable? || (body.title.Absent? && !(body.url.NonText? && body.url.truthy))
    ensures Post(Some(id), body, parse, insert) == PostOutcome(Json(400, ErrorBody(InvalidBodyMessage)), None)
  {
    assert ReadTitle(body) == Success(None);
    assert ReadUrl(body, parse).Success?;
  }

  /** A valid body inserts the trimmed title, the normalised URL and the caller's id; the answer
      is 201 with the row the store returns, or 500 when the store fails. */
  lemma PostInsertsNormalisedRow(id: string, title: string, url: string, parse: UrlParser, insert: Insert)
    requires Trim(title) != [] && IsTruthy(NormalizeUrl(url, parse))
    ensures var row := NewRow(Trim(title), NormalizeUrl(url, parse).value, id);
      && Post(Some(id), Payload(Text(title), Text(url)), parse, insert).inserted == Some(row)
      && Post(Some(id), Payload(Text(title), Text(url)), parse, insert).response ==
         (if insert(row).Some? then Json(201, CreatedBody(insert(row).value))
          else Json(500, ErrorBody(SaveFailedMessage)))
  {
    ReadValidFields(title, url, parse);
    PostStoresReadFields(id, Payload(Text(title), Text(url)), parse, insert, Trim(title), NormalizeUrl(url, parse).value);
  }

  /** A text title reads as its trim, and a text url that normalises reads as its normal form. */
  lemma ReadValidFields(title: string, url: string, parse: UrlParser)
    requires NormalizeUrl(url, parse).Some?
    ensures ReadTitle(Payload(Text(title), Text(url))) == Success(Some(Trim(title)))
    ensures ReadUrl(Payload(Text(title), Text(url)), parse) == Success(NormalizeUrl(url, parse))
  {
    assert url != "" by { assert NormalizeUrl(url, parse).Some?; }
  }

  /** Once the body has been read into a non-empty title and a non-empty URL, POST stores that row. */
  lemma PostStoresReadFields(id: string, body: PostBody, parse: UrlParser, insert: Insert, title: string, url: string)
    requires ReadTitle(body) == Success(Some(title)) && title != ""
    requires ReadUrl(body, parse) == Success(Some(url)) && url != ""
    ensures Post(Some(id), body, parse, insert) == Store(NewRow(title, url, id), insert)
  {
  }

  /** An insert is issued only for a non-empty trimmed title and a URL that normalizeUrl accepted,
      and exactly when the answer is 201 or 500. */
  lemma PostInsertsOnlyValidRows(user: SessionUser, body: PostBody, parse: UrlParser, insert: Insert)
    ensures var r := Post(user, body, parse, insert);
      r.inserted.Some? <==> r.response.Json? && r.response.status in {201, 500}
    ensures var r := Post(user, body, parse, insert);
      r.inserted.Some? ==> InsertIsValid(body, parse, r.inserted.value)
  {
    PostInsertHappensOnlyOnStore(user, body, parse, insert);
  }

  lemma PostInsertHappensOnlyOnStore(user: SessionUser, body: PostBody, parse: UrlParser, insert: Insert)
    ensures var r := Post(user, body, parse, insert);
      r.inserted.Some? <==> r.response.Json? && r.response.status in {201, 500}
  {
  }

  /** `row` carries the body's string title, trimmed and non-empty, and the normalised, non-empty
      form of the body's string url. */
  ghost predicate InsertIsValid(body: PostBody, parse: UrlParser, row: NewRow) {
    && body.Payload? && body.title.Text? && body.url.Text?
    && row.title == Trim(body.title.text) && row.title != []
    && NormalizeUrl(body.url.text, parse) == Some(row.url) && row.url != ""
  }
}
