/** BookmarkDashboard: the state of one open tab and its handlers, which update the state fields
    one `set...` call at a time. Each method is one transition between awaits, and its contract
    ties the new state to the transition functions of DashboardState. */
module Dashboard {
  import opened Wrappers
  import opened JsString
  import opened Url
  import opened Bookmarks
  import opened TabSync
  import opened DashboardState
  import opened DashboardTrace

  class BookmarkDashboard {
    const userId: string
    const hasBroadcastChannel: bool
    var bookmarks: seq<Bookmark>
    var title: string
    var url: string
    var isSubmitting: bool
    var deleteId: Option<string>
    var errorMessage: Option<string>
    /** The requests and signals this tab has sent, in order. */
    var sent: seq<Effect>

    function State(): ViewState
      reads this
    {
      ViewState(userId, hasBroadcastChannel, bookmarks, title, url, isSubmitting, deleteId, errorMessage, sent)
    }

    constructor (initialBookmarks: seq<Bookmark>, initialError: Option<string>, userId: string,
                 hasBroadcastChannel: bool)
      ensures State() == Initial(initialBookmarks, initialError, userId, hasBroadcastChannel)
    {
      this.userId := userId;
      this.hasBroadcastChannel := hasBroadcastChannel;
      bookmarks := initialBookmarks;
      title := "";
      url := "";
      isSubmitting := false;
      deleteId := None;
      errorMessage := initialError;
      sent := [];
    }

    /** The title input's onChange. */
    method SetTitle(value: string)
      modifies this
      ensures State() == old(State()).(title := value)
    {
      title := value;
    }

    /** The URL input's onChange. */
    method SetUrl(value: string)
      modifies this
      ensures State() == old(State()).(url := value)
    {
      url := value;
    }

    /** loadBookmarks up to `await fetch`. */
    method StartLoad()
      modifies this
      ensures State() == DashboardState.StartLoad(old(State()))
    {
      sent := sent + [Http(ListBookmarks)];
    }

    /** loadBookmarks from the fetch's answer; `rejected` is true when it throws. */
    method FinishLoad(response: ListResponse) returns (rejected: bool)
      modifies this
      ensures State() == DashboardState.FinishLoad(old(State()), response)
      ensures rejected <==> response.ListRejected?
    {
      if response.ListRejected? {
        return true;
      }
      if response.ListNotOk? {
        errorMessage := Some(RefreshFailedMessage);
        return false;
      }
      bookmarks := response.bookmarks;
      return false;
    }

    method NotifyOtherTabs()
      modifies this
      ensures State() == Notify(old(State()))
    {
      var payload := SyncPayload(userId);
      if hasBroadcastChannel {
        sent := sent + [Emit(Broadcast(TabSyncChannel, payload))];
      }
      sent := sent + [Emit(StorageWrite(TabSyncKey, payload))];
      assert EmitAll(TabSync.NotifyOtherTabs(userId, hasBroadcastChannel)) ==
        (if hasBroadcastChannel then [Emit(Broadcast(TabSyncChannel, payload))] else [])
          + [Emit(StorageWrite(TabSyncKey, payload))];
    }

    /** handleCreateBookmark up to `await fetch(POST)`: `request` is what the inputs validated
        to, and the one sent if any. */
    method SubmitCreate(parse: UrlParser) returns (request: Option<Request>)
      modifies this
      ensures request == CreateRequest(old(title), old(url), parse)
      ensures State() == DashboardState.SubmitRequest(old(State()), request)
    {
      request := CreateRequest(title, url, parse);
      SubmitRequest(request);
    }

    /** The rest of handleCreateBookmark up to `await fetch(POST)`, once the inputs are validated
        into `request`: report the invalid input, or mark the form busy and send the request. */
    method SubmitRequest(request: Option<Request>)
      modifies this
      ensures State() == DashboardState.SubmitRequest(old(State()), request)
    {
      if request.None? {
        errorMessage := Some(InvalidInputMessage);
        return;
      }
      isSubmitting := true;
      errorMessage := None;
      sent := sent + [Http(request.value)];
    }

    /** handleCreateBookmark from the POST's answer; `reloading` says whether it went on to
        `await loadBookmarks()` rather than leave through the `finally`. */
    method CreateAnswered(response: MutationResponse) returns (reloading: bool)
      modifies this
      ensures State() == DashboardState.CreateAnswered(old(State()), response)
      ensures reloading <==> response.MutationOk?
    {
      if response.MutationRejected? {
        isSubmitting := false;
        return false;
      }
      if response.MutationNotOk? {
        errorMessage := Some(response.error.GetOr(AddFailedMessage));
        isSubmitting := false;
        return false;
      }
      title := "";
      url := "";
      StartLoad();
      return true;
    }

    /** handleCreateBookmark from the reload's answer to the end of the `finally`. */
    method CreateRefreshed(response: ListResponse)
      modifies this
      ensures State() == DashboardState.CreateRefreshed(old(State()), response)
    {
      var rejected := FinishLoad(response);
      if !rejected {
        NotifyOtherTabs();
      }
      isSubmitting := false;
    }

    /** handleCreateBookmark when each await resumes with nothing in between. */
    method HandleCreateBookmark(parse: UrlParser, post: MutationResponse, reload: ListResponse)
      modifies this
      ensures State() == HandleCreate(old(State()), parse, post, reload)
    {
      var request := SubmitCreate(parse);
      if request.Some? {
        var reloading := CreateAnswered(post);
        if reloading {
          CreateRefreshed(reload);
        }
      }
    }

    /** handleDeleteBookmark up to `await fetch(DELETE)`. */
    method StartDelete(id: string)
      modifies this
      ensures State() == DashboardState.StartDelete(old(State()), id)
    {
      deleteId := Some(id);
      errorMessage := None;
      sent := sent + [Http(DeleteBookmark(id))];
    }

    method DeleteAnswered(response: MutationResponse) returns (reloading: bool)
      modifies this
      ensures State() == DashboardState.DeleteAnswered(old(State()), response)
      ensures reloading <==> response.MutationOk?
    {
      if response.MutationRejected? {
        deleteId := None;
        return false;
      }
      if response.MutationNotOk? {
        errorMessage := Some(response.error.GetOr(DeleteFailedMessage));
        deleteId := None;
        return false;
      }
      StartLoad();
      return true;
    }

    method DeleteRefreshed(response: ListResponse)
      modifies this
      ensures State() == DashboardState.DeleteRefreshed(old(State()), response)
    {
      var rejected := FinishLoad(response);
      if !rejected {
        NotifyOtherTabs();
      }
      deleteId := None;
    }

    method HandleDeleteBookmark(id: string, del: MutationResponse, reload: ListResponse)
      modifies this
      ensures State() == HandleDelete(old(State()), id, del, reload)
    {
      StartDelete(id);
      var reloading := DeleteAnswered(del);
      if reloading {
        DeleteRefreshed(reload);
      }
    }

    /** The realtime feed's change handler. */
    method OnRealtimeChange()
      modifies this
      ensures State() == DashboardState.OnRealtimeChange(old(State()))
    {
      StartLoad();
    }

    /** The window's storage event handler. */
    method OnStorage(key: Option<string>, newValue: Option<string>, read: SignalReader)
      modifies this
      ensures State() == DashboardState.OnStorage(old(State()), key, newValue, read)
    {
      if key != Some(TabSyncKey) || newValue.None? || newValue.value == "" {
        return;
      }
      match read(newValue.value)
      case Malformed =>
      case Parsed(payloadUserId) =>
        if payloadUserId == Some(userId) {
          StartLoad();
        }
    }

    /** The BroadcastChannel's message handler. */
    method OnBroadcast(dataUserId: Option<string>)
      modifies this
      ensures State() == DashboardState.OnBroadcast(old(State()), dataUserId)
    {
      if dataUserId == Some(userId) {
        StartLoad();
      }
    }

    /** Delivers one page event to the handler it reaches, if the page lets it through. */
    method Deliver(e: Event, parse: UrlParser, read: SignalReader)
      modifies this
      ensures State() == Step(old(State()), e, parse, read)
    {
      match e
      case TitleEdited(value) => SetTitle(value);
      case UrlEdited(value) => SetUrl(value);
      case CreateSubmitted =>
        if !isSubmitting && title != "" && url != "" {
          var _ := SubmitCreate(parse);
        }
      case CreatePosted(post) => var _ := CreateAnswered(post);
      case CreateReloaded(list) => CreateRefreshed(list);
      case DeleteClicked(id) =>
        if IsListed(State(), id) && deleteId != Some(id) {
          StartDelete(id);
        }
      case DeletePosted(del) => var _ := DeleteAnswered(del);
      case DeleteReloaded(list) => DeleteRefreshed(list);
      case RealtimeChanged => OnRealtimeChange();
      case StorageChanged(key, newValue) => OnStorage(key, newValue, read);
      case BroadcastReceived(dataUserId) => OnBroadcast(dataUserId);
      case ReloadFinished(list) => var _ := FinishLoad(list);
    }

    /** Delivers a sequence of page events in order. The list shown afterwards is the one the
        last successful refetch returned, or the list shown before when there was none. */
    method DeliverAll(es: seq<Event>, parse: UrlParser, read: SignalReader)
      modifies this
      ensures State() == Run(old(State()), es, parse, read)
      ensures bookmarks == LastFetched(es, old(bookmarks))
    {
      ghost var start := State();
      for i := 0 to |es|
        invariant State() == Run(start, es[..i], parse, read)
      {
        RunThenStep(start, es[..i], es[i], parse, read);
        assert es[..i + 1] == es[..i] + [es[i]];
        Deliver(es[i], parse, read);
      }
      assert es[..|es|] == es;
      RunShowsLastFetchedList(start, es, parse, read);
    }
  }
}
