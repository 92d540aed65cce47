/** A tab over time: the events the page can see, in the order they happen, with the guards the
    rendered page puts in front of its handlers (a disabled button cannot be clicked, a form with an
    empty `required` input is not submitted, and only listed rows have a delete button).
    Overlapping requests interleave freely: each answer is its own event. */
module DashboardTrace {
  import opened Wrappers
  import opened JsString
  import opened Url
  import opened Bookmarks
  import opened TabSync
  import opened DashboardState

  datatype Event =
    | TitleEdited(value: string)
    | UrlEdited(value: string)
    | CreateSubmitted
    | CreatePosted(post: MutationResponse)
    | CreateReloaded(list: ListResponse)
    | DeleteClicked(id: string)
    | DeletePosted(del: MutationResponse)
    | DeleteReloaded(list: ListResponse)
    | RealtimeChanged
    | StorageChanged(key: Option<string>, newValue: Option<string>)
    | BroadcastReceived(dataUserId: Option<string>)
    | ReloadFinished(list: ListResponse)

  /** `id` is the id of a listed row, so its delete button is on the page. */
  predicate IsListed(s: ViewState, id: string) {
    exists b :: b in s.bookmarks && b.id == id
  }

  /** The `required` attribute on both inputs: the browser does not submit the form while either
      value is empty. It tests the raw value, so whitespace alone gets through to the handler. */
  predicate FormIncomplete(s: ViewState) {
    s.title == "" || s.url == ""
  }

  function Step(s: ViewState, e: Event, parse: UrlParser, read: SignalReader): ViewState {
    match e
    case TitleEdited(value) => s.(title := value)
    case UrlEdited(value) => s.(url := value)
    case CreateSubmitted => if SubmitDisabled(s) || FormIncomplete(s) then s else SubmitCreate(s, parse)
    case CreatePosted(post) => CreateAnswered(s, post)
    case CreateReloaded(list) => CreateRefreshed(s, list)
    case DeleteClicked(id) => if !IsListed(s, id) || DeleteDisabled(s, id) then s else StartDelete(s, id)
    case DeletePosted(del) => DeleteAnswered(s, del)
    case DeleteReloaded(list) => DeleteRefreshed(s, list)
    case RealtimeChanged => OnRealtimeChange(s)
    case StorageChanged(key, newValue) => OnStorage(s, key, newValue, read)
    case BroadcastReceived(dataUserId) => OnBroadcast(s, dataUserId)
    case ReloadFinished(list) => FinishLoad(s, list)
  }

  function Run(s: ViewState, es: seq<Event>, parse: UrlParser, read: SignalReader): ViewState
    decreases |es|
  {
    if es == [] then s else Run(Step(s, es[0], parse, read), es[1..], parse, read)
  }

  /** A run extended by one event is that run followed by a step. */
  lemma {:induction false} RunThenStep(s: ViewState, es: seq<Event>, e: Event, parse: UrlParser, read: SignalReader)
    ensures Run(s, es + [e], parse, read) == Step(Run(s, es, parse, read), e, parse, read)
    decreases |es|
  {
    if es == [] {
      assert Run(Step(s, e, parse, read), [], parse, read) == Step(s, e, parse, read);
      assert [] + [e] == [e];
    } else {
      assert (es + [e])[1..] == es[1..] + [e];
      RunThenStep(Step(s, es[0], parse, read), es[1..], e, parse, read);
    }
  }

  // ---- the list is the last fetched list ----

  /** The list an event delivers, if it is a successful refetch. */
  function Fetched(e: Event): Option<seq<Bookmark>> {
    if (e.CreateReloaded? || e.DeleteReloaded? || e.ReloadFinished?) && e.list.Listed?
    then Some(e.list.bookmarks) else None
  }

  /** The list of the last successful refetch in `es`, or `current` when there is none. */
  function LastFetched(es: seq<Event>, current: seq<Bookmark>): seq<Bookmark>
    decreases |es|
  {
    if es == [] then current else LastFetched(es[1..], Fetched(es[0]).GetOr(current))
  }

  lemma StepKeepsOrReplacesList(s: ViewState, e: Event, parse: UrlParser, read: SignalReader)
    ensures Step(s, e, parse, read).bookmarks == Fetched(e).GetOr(s.bookmarks)
  {
  }

  /** The shown list is never patched: after any sequence of events it is, verbatim, the list of
      the last refetch that completed successfully (or the initial list), whatever order the
      answers of overlapping reloads arrived in. */
  lemma {:induction false} RunShowsLastFetchedList(s: ViewState, es: seq<Event>, parse: UrlParser, read: SignalReader)
    ensures Run(s, es, parse, read).bookmarks == LastFetched(es, s.bookmarks)
    decreases |es|
  {
    if es != [] {
      StepKeepsOrReplacesList(s, es[0], parse, read);
      RunShowsLastFetchedList(Step(s, es[0], parse, read), es[1..], parse, read);
    }
  }

  // ---- what a tab sends ----

  /** Every signal in `effects` carries `userId`. */
  predicate SignalsCarry(effects: seq<Effect>, userId: string) {
    forall k :: 0 <= k < |effects| && effects[k].Emit? ==> effects[k].signal.payload.userId == userId
  }

  /** A create request that passed validation: its title is non-empty with no surrounding
      whitespace, and its URL is what normalizeUrl made of some input. */
  ghost predicate ValidCreate(request: Request, parse: UrlParser) {
    request.CreateBookmark? ==>
      && request.title != []
      && !IsJsWhitespace(request.title[0]) && !IsJsWhitespace(request.title[|request.title| - 1])
      && request.url != ""
      && exists input :: NormalizeUrl(input, parse) == Some(request.url)
  }

  ghost predicate RequestsValid(effects: seq<Effect>, parse: UrlParser) {
    forall k :: 0 <= k < |effects| && effects[k].Http? ==> ValidCreate(effects[k].request, parse)
  }

  /** What a tab has sent only grows; its user never changes; it signals only its own user id;
      and every create request it sends passed validation. */
  ghost predicate SendsSound(s: ViewState, t: ViewState, parse: UrlParser) {
    && s.sent <= t.sent
    && t.userId == s.userId && t.hasBroadcastChannel == s.hasBroadcastChannel
    && (SignalsCarry(s.sent, s.userId) ==> SignalsCarry(t.sent, s.userId))
    && (RequestsValid(s.sent, parse) ==> RequestsValid(t.sent, parse))
  }

  lemma AppendKeepsSound(s: ViewState, added: seq<Effect>, parse: UrlParser)
    requires SignalsCarry(added, s.userId) && RequestsValid(added, parse)
    ensures SendsSound(s, s.(sent := s.sent + added), parse)
  {
    var t := s.sent + added;
    forall k | 0 <= k < |t|
      ensures t[k] == (if k < |s.sent| then s.sent[k] else added[k - |s.sent|])
    {
    }
  }

  lemma NotifyIsSound(s: ViewState, parse: UrlParser)
    ensures SignalsCarry(EmitAll(NotifyOtherTabs(s.userId, s.hasBroadcastChannel)), s.userId)
    ensures RequestsValid(EmitAll(NotifyOtherTabs(s.userId, s.hasBroadcastChannel)), parse)
  {
  }

  lemma StartLoadIsSound(s: ViewState, parse: UrlParser)
    ensures SendsSound(s, StartLoad(s), parse)
  {
    var list := [Http(ListBookmarks)];
    assert SignalsCarry(list, s.userId) && RequestsValid(list, parse);
    AppendKeepsSound(s, list, parse);
  }

  lemma SubmitIsSound(s: ViewState, parse: UrlParser)
    ensures SendsSound(s, SubmitCreate(s, parse), parse)
  {
    var request := CreateRequest(s.title, s.url, parse);
    if request.Some? {
      var r := request.value;
      assert NormalizeUrl(s.url, parse) == Some(r.url);
      assert ValidCreate(r, parse);
      assert RequestsValid([Http(r)], parse);
      AppendKeepsSound(s.(isSubmitting := true, errorMessage := None), [Http(r)], parse);
    }
  }

  lemma StartDeleteIsSound(s: ViewState, id: string, parse: UrlParser)
    ensures SendsSound(s, StartDelete(s, id), parse)
  {
    var del := [Http(DeleteBookmark(id))];
    assert SignalsCarry(del, s.userId) && RequestsValid(del, parse);
    AppendKeepsSound(s.(deleteId := Some(id), errorMessage := None), del, parse);
  }

  lemma RefreshIsSound(s: ViewState, r: ListResponse, parse: UrlParser)
    ensures SendsSound(s, CreateRefreshed(s, r), parse)
    ensures SendsSound(s, DeleteRefreshed(s, r), parse)
  {
    var loaded := FinishLoad(s, r);
    if !r.ListRejected? {
      NotifyIsSound(loaded, parse);
      AppendKeepsSound(loaded, EmitAll(NotifyOtherTabs(s.userId, s.hasBroadcastChannel)), parse);
    }
  }

  lemma {:induction false} StepIsSound(s: ViewState, e: Event, parse: UrlParser, read: SignalReader)
    ensures SendsSound(s, Step(s, e, parse, read), parse)
  {
    match e
    case CreateSubmitted =>
      if !SubmitDisabled(s) && !FormIncomplete(s) {
        SubmitIsSound(s, parse);
      }
    case CreatePosted(post) => StartLoadIsSound(s.(title := "", url := ""), parse);
    case CreateReloaded(r) => RefreshIsSound(s, r, parse);
    case DeleteClicked(id) => StartDeleteIsSound(s, id, parse);
    case DeletePosted(del) => StartLoadIsSound(s, parse);
    case DeleteReloaded(r) => RefreshIsSound(s, r, parse);
    case RealtimeChanged => StartLoadIsSound(s, parse);
    case StorageChanged(key, newValue) => StartLoadIsSound(s, parse);
    case BroadcastReceived(dataUserId) => StartLoadIsSound(s, parse);
    case TitleEdited(_) =>
    case UrlEdited(_) =>
    case ReloadFinished(_) =>
  }

  /** Over any run: the tab only appends to what it has sent, every signal it sends names its own
      user, and no create request leaves the tab without having passed validation. */
  lemma {:induction false} RunIsSound(s: ViewState, es: seq<Event>, parse: UrlParser, read: SignalReader)
    ensures SendsSound(s, Run(s, es, parse, read), parse)
    decreases |es|
  {
    if es != [] {
      var next := Step(s, es[0], parse, read);
      StepIsSound(s, es[0], parse, read);
      RunIsSound(next, es[1..], parse, read);
    }
  }

  /** A submit of invalid input sends nothing and changes nothing but the message. */
  lemma InvalidSubmitSendsNothing(s: ViewState, parse: UrlParser, read: SignalReader)
    requires Trim(s.title) == [] || !IsTruthy(NormalizeUrl(s.url, parse))
    ensures var t := Step(s, CreateSubmitted, parse, read);
      t.sent == s.sent && t.bookmarks == s.bookmarks && t.isSubmitting == s.isSubmitting
  {
  }

  /** Submitting the form while an input is empty reaches no handler: nothing changes. */
  lemma IncompleteFormNotSubmitted(s: ViewState, parse: UrlParser, read: SignalReader)
    requires s.title == "" || s.url == ""
    ensures Step(s, CreateSubmitted, parse, read) == s
  {
  }

  /** A second click on the row being deleted is not a second request. */
  lemma PendingDeleteClickIgnored(s: ViewState, id: string, parse: UrlParser, read: SignalReader)
    requires s.deleteId == Some(id)
    ensures Step(s, DeleteClicked(id), parse, read) == s
  {
  }

  /** The single `deleteId` slot guards only the latest delete: when the answer to an earlier
      DELETE comes back it clears the slot, and the row still being deleted can be clicked again,
      which sends a second DELETE for it. */
  lemma DeleteOfPendingRowCanRepeat(s: ViewState, a: string, b: string, parse: UrlParser, read: SignalReader)
    requires IsListed(s, a) && IsListed(s, b) && a != b && s.deleteId.None?
    ensures Run(s, [DeleteClicked(a), DeleteClicked(b), DeletePosted(MutationNotOk(None)), DeleteClicked(b)], parse, read).sent
      == s.sent + [Http(DeleteBookmark(a)), Http(DeleteBookmark(b)), Http(DeleteBookmark(b))]
  {
    var es := [DeleteClicked(a), DeleteClicked(b), DeletePosted(MutationNotOk(None)), DeleteClicked(b)];
    var s1 := Step(s, es[0], parse, read);
    assert s1 == StartDelete(s, a);
    var s2 := Step(s1, es[1], parse, read);
    assert IsListed(s1, b) by { assert s1.bookmarks == s.bookmarks; }
    assert s2 == StartDelete(s1, b);
    var s3 := Step(s2, es[2], parse, read);
    assert s3.deleteId.None? && s3.bookmarks == s.bookmarks;
    var s4 := Step(s3, es[3], parse, read);
    assert IsListed(s3, b) by { assert s3.bookmarks == s.bookmarks; }
    assert s4 == StartDelete(s3, b);
    assert Run(s, es, parse, read) == Run(s1, es[1..], parse, read);
    assert Run(s1, es[1..], parse, read) == Run(s2, es[2..], parse, read) by { assert es[1..][1..] == es[2..]; }
    assert Run(s2, es[2..], parse, read) == Run(s3, es[3..], parse, read) by { assert es[2..][1..] == es[3..]; }
    assert Run(s3, es[3..], parse, read) == s4 by { assert es[3..][1..] == []; }
  }
}
