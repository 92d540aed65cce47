/** The view state of one open dashboard tab and the transitions its handlers make. Every awaited
    step of a handler is one transition: `await fetch(...)` ends a transition and its response
    starts the next. The class BookmarkDashboard performs these transitions on its fields. */
module DashboardState {
  import opened Wrappers
  import opened JsString
  import opened Url
  import opened Bookmarks
  import opened TabSync

  const InvalidInputMessage := "Enter a valid title and URL."
  const RefreshFailedMessage := "Failed to refresh bookmarks."
  const AddFailedMessage := "Failed to add bookmark."
  const DeleteFailedMessage := "Failed to delete bookmark."

  /** The answer to `fetch("/api/bookmarks")`: an ok response with its `bookmarks`, a non-ok
      response, or a rejected fetch (or body read). */
  datatype ListResponse = Listed(bookmarks: seq<Bookmark>) | ListNotOk | ListRejected

  /** The answer to a POST or DELETE: ok; non-ok with the `error` property of its JSON body (None
      when the body does not parse or has no `error`); or a rejected fetch. */
  datatype MutationResponse = MutationOk | MutationNotOk(error: Option<string>) | MutationRejected

  /** The requests a tab sends to the API. */
  datatype Request = ListBookmarks | CreateBookmark(title: string, url: string) | DeleteBookmark(id: string)

  /** What a tab does to the outside world, in order. */
  datatype Effect = Http(request: Request) | Emit(signal: Signal)

  /** The React state of the tab plus its props (`userId`) and what it has sent so far. */
  datatype ViewState = ViewState(
    userId: string,
    hasBroadcastChannel: bool,
    bookmarks: seq<Bookmark>,
    title: string,
    url: string,
    isSubmitting: bool,
    deleteId: Option<string>,
    errorMessage: Option<string>,
    sent: seq<Effect>)

  /** The state a tab starts in, seeded by the server render. */
  function Initial(initialBookmarks: seq<Bookmark>, initialError: Option<string>, userId: string,
                   hasBroadcastChannel: bool): ViewState
  {
    ViewState(userId, hasBroadcastChannel, initialBookmarks, "", "", false, None, initialError, [])
  }

  /** `disabled={deleteId === bookmark.id}` on a row's delete button. */
  predicate DeleteDisabled(s: ViewState, id: string) {
    s.deleteId == Some(id)
  }

  /** `disabled={isSubmitting}` on the add button. */
  predicate SubmitDisabled(s: ViewState) {
    s.isSubmitting
  }

  // ---- loadBookmarks ----

  /** The first half of loadBookmarks: the list request goes out. */
  function StartLoad(s: ViewState): ViewState {
    s.(sent := s.sent + [Http(ListBookmarks)])
  }

  /** The second half of loadBookmarks: apply the answer. */
  function FinishLoad(s: ViewState, response: ListResponse): (t: ViewState)
    ensures response.Listed? ==> t == s.(bookmarks := response.bookmarks)
    ensures response.ListNotOk? ==> t == s.(errorMessage := Some(RefreshFailedMessage))
    ensures response.ListRejected? ==> t == s
  {
    match response
    case Listed(bookmarks) => s.(bookmarks := bookmarks)
    case ListNotOk => s.(errorMessage := Some(RefreshFailedMessage))
    case ListRejected => s
  }

  /** notifyOtherTabs. */
  function Notify(s: ViewState): ViewState {
    s.(sent := s.sent + EmitAll(NotifyOtherTabs(s.userId, s.hasBroadcastChannel)))
  }

  function EmitAll(sigs: seq<Signal>): (es: seq<Effect>)
    ensures |es| == |sigs|
    ensures forall k :: 0 <= k < |sigs| ==> es[k] == Emit(sigs[k])
  {
    if sigs == [] then [] else [Emit(sigs[0])] + EmitAll(sigs[1..])
  }

  // ---- handleCreateBookmark ----

  /** The request a submit sends: the normalised URL and the trimmed title, or None when either
      is falsy (an empty title, or a URL normalizeUrl made null or ""). */
  function CreateRequest(title: string, url: string, parse: UrlParser): (r: Option<Request>)
    ensures r.None? <==> Trim(title) == [] || !IsTruthy(NormalizeUrl(url, parse))
    ensures r.Some? ==> r.value == CreateBookmark(Trim(title), NormalizeUrl(url, parse).value)
  {
    var normalizedUrl := NormalizeUrl(url, parse);
    var trimmedTitle := Trim(title);
    if trimmedTitle == [] || !IsTruthy(normalizedUrl) then None
    else Some(CreateBookmark(trimmedTitle, normalizedUrl.value))
  }

  /** handleCreateBookmark up to `await fetch(POST)`. */
  function SubmitCreate(s: ViewState, parse: UrlParser): ViewState {
    SubmitRequest(s, CreateRequest(s.title, s.url, parse))
  }

  /** Submitting once the inputs have been validated into `request`. */
  function SubmitRequest(s: ViewState, request: Option<Request>): ViewState {
    match request
    case None => s.(errorMessage := Some(InvalidInputMessage))
    case Some(r) => s.(isSubmitting := true, errorMessage := None, sent := s.sent + [Http(r)])
  }

  /** handleCreateBookmark from the POST's answer up to `await loadBookmarks()`, or to its exit
      through the `finally`. */
  function CreateAnswered(s: ViewState, response: MutationResponse): ViewState {
    match response
    case MutationOk => StartLoad(s.(title := "", url := ""))
    case MutationNotOk(error) => s.(errorMessage := Some(error.GetOr(AddFailedMessage)), isSubmitting := false)
    case MutationRejected => s.(isSubmitting := false)
  }

  /** handleCreateBookmark from the reload's answer to the end: a rejected reload throws past
      notifyOtherTabs, a non-ok one does not (loadBookmarks returns normally). */
  function CreateRefreshed(s: ViewState, response: ListResponse): ViewState {
    var loaded := FinishLoad(s, response);
    var notified := if response.ListRejected? then loaded else Notify(loaded);
    notified.(isSubmitting := false)
  }

  /** The whole create handler when its awaits resume without anything in between. */
  function HandleCreate(s: ViewState, parse: UrlParser, post: MutationResponse, reload: ListResponse): ViewState {
    var submitted := SubmitCreate(s, parse);
    if CreateRequest(s.title, s.url, parse).None? then submitted
    else
      var answered := CreateAnswered(submitted, post);
      if post.MutationOk? then CreateRefreshed(answered, reload) else answered
  }

  // ---- handleDeleteBookmark ----

  /** handleDeleteBookmark up to `await fetch(DELETE)`. */
  function StartDelete(s: ViewState, id: string): ViewState {
    s.(deleteId := Some(id), errorMessage := None, sent := s.sent + [Http(DeleteBookmark(id))])
  }

  function DeleteAnswered(s: ViewState, response: MutationResponse): ViewState {
    match response
    case MutationOk => StartLoad(s)
    case MutationNotOk(error) => s.(errorMessage := Some(error.GetOr(DeleteFailedMessage)), deleteId := None)
    case MutationRejected => s.(deleteId := None)
  }

  function DeleteRefreshed(s: ViewState, response: ListResponse): ViewState {
    var loaded := FinishLoad(s, response);
    var notified := if response.ListRejected? then loaded else Notify(loaded);
    notified.(deleteId := None)
  }

  function HandleDelete(s: ViewState, id: string, del: MutationResponse, reload: ListResponse): ViewState {
    var answered := DeleteAnswered(StartDelete(s, id), del);
    if del.MutationOk? then DeleteRefreshed(answered, reload) else answered
  }

  // ---- listeners ----

  /** The realtime feed listener reloads on every change event of the user's rows. */
  function OnRealtimeChange(s: ViewState): ViewState {
    StartLoad(s)
  }

  function OnStorage(s: ViewState, key: Option<string>, newValue: Option<string>, read: SignalReader): ViewState {
    if StorageEventWakes(key, newValue, read, s.userId) then StartLoad(s) else s
  }

  function OnBroadcast(s: ViewState, dataUserId: Option<string>): ViewState {
    if BroadcastWakes(dataUserId, s.userId) then StartLoad(s) else s
  }

  // ---- what the handlers promise ----

  /** loadBookmarks: an ok answer replaces the list with exactly what was fetched; a non-ok answer
      sets the refresh message and keeps the list; a rejected fetch changes nothing. */
  lemma LoadReplacesOrKeeps(s: ViewState, response: ListResponse)
    ensures var t := FinishLoad(StartLoad(s), response);
      && t.bookmarks == (if response.Listed? then response.bookmarks else s.bookmarks)
      && t.errorMessage == (if response.ListNotOk? then Some(RefreshFailedMessage) else s.errorMessage)
      && t.sent == s.sent + [Http(ListBookmarks)]
      && t.(bookmarks := s.bookmarks, errorMessage := s.errorMessage, sent := s.sent) == s
  {
  }

  /** Every path through handleCreateBookmark. Invalid input only sets the validation message: no
      request, `isSubmitting` and the list untouched. Otherwise `isSubmitting` ends false on every
      path; a failed or rejected POST keeps the inputs and the list and sends nothing more; and a
      successful one clears the inputs, reloads and only then notifies the other tabs. */
  lemma HandleCreateOutcome(s: ViewState, parse: UrlParser, post: MutationResponse, reload: ListResponse)
    ensures var t := HandleCreate(s, parse, post, reload);
      match CreateRequest(s.title, s.url, parse)
      case None => t == s.(errorMessage := Some(InvalidInputMessage))
      case Some(request) =>
        && !t.isSubmitting
        && t.userId == s.userId && t.hasBroadcastChannel == s.hasBroadcastChannel && t.deleteId == s.deleteId
        && (post.MutationOk? ==>
              && t.title == "" && t.url == ""
              && t.sent == s.sent + [Http(request), Http(ListBookmarks)]
                           + (if reload.ListRejected? then [] else EmitAll(NotifyOtherTabs(s.userId, s.hasBroadcastChannel)))
              && t.bookmarks == (if reload.Listed? then reload.bookmarks else s.bookmarks)
              && t.errorMessage == (if reload.ListNotOk? then Some(RefreshFailedMessage) else None))
        && (!post.MutationOk? ==>
              && t.title == s.title && t.url == s.url && t.bookmarks == s.bookmarks
              && t.sent == s.sent + [Http(request)]
              && t.errorMessage == (if post.MutationNotOk? then Some(post.error.GetOr(AddFailedMessage)) else None))
  {
    if CreateRequest(s.title, s.url, parse).Some? && post.MutationOk? {
      var request := CreateRequest(s.title, s.url, parse).value;
      var answered := CreateAnswered(SubmitCreate(s, parse), post);
      assert answered.sent == s.sent + [Http(request), Http(ListBookmarks)];
    }
  }

  /** Every path through handleDeleteBookmark: `deleteId` ends null, a failure sets the payload's
      error or the default and sends nothing more, and a success reloads and then notifies. */
  lemma HandleDeleteOutcome(s: ViewState, id: string, del: MutationResponse, reload: ListResponse)
    ensures var t := HandleDelete(s, id, del, reload);
      && t.deleteId.None?
      && t.userId == s.userId && t.title == s.title && t.url == s.url && t.isSubmitting == s.isSubmitting
      && (del.MutationOk? ==>
            && t.sent == s.sent + [Http(DeleteBookmark(id)), Http(ListBookmarks)]
                         + (if reload.ListRejected? then [] else EmitAll(NotifyOtherTabs(s.userId, s.hasBroadcastChannel)))
            && t.bookmarks == (if reload.Listed? then reload.bookmarks else s.bookmarks)
            && t.errorMessage == (if reload.ListNotOk? then Some(RefreshFailedMessage) else None))
      && (!del.MutationOk? ==>
            && t.bookmarks == s.bookmarks
            && t.sent == s.sent + [Http(DeleteBookmark(id))]
            && t.errorMessage == (if del.MutationNotOk? then Some(del.error.GetOr(DeleteFailedMessage)) else None))
  {
    if del.MutationOk? {
      var answered := DeleteAnswered(StartDelete(s, id), del);
      assert answered.sent == s.sent + [Http(DeleteBookmark(id)), Http(ListBookmarks)];
    }
  }

  /** While a delete is pending, the button of the row being deleted is disabled and no other is. */
  lemma StartDeleteDisablesOnlyThatRow(s: ViewState, id: string, other: string)
    ensures DeleteDisabled(StartDelete(s, id), id)
    ensures other != id ==> !DeleteDisabled(StartDelete(s, id), other)
    ensures StartDelete(s, id).errorMessage.None?
  {
  }

  /** The `??` in the failure message replaces only a missing `error`: an empty string is shown
      as it is (and, being falsy, hides the message line). */
  lemma FailureMessageKeepsEmptyError(s: ViewState)
    ensures CreateAnswered(s, MutationNotOk(Some(""))).errorMessage == Some("")
    ensures CreateAnswered(s, MutationNotOk(None)).errorMessage == Some(AddFailedMessage)
    ensures DeleteAnswered(s, MutationNotOk(None)).errorMessage == Some(DeleteFailedMessage)
  {
  }
}
