/** The state of the top-level component (App.tsx) as one record, and its
    handlers as transition functions. Effects are made into inputs: the
    outcome of a remote read or write and the clock value `now` are
    parameters, and the browser's local storage is part of the state. */
module App {
  import opened Wrappers
  import opened Types
  import opened Mapper
  import Requests

  datatype View = DASHBOARD | CREATE | ADMIN | ANALYTICS

  /** The two local-storage keys the component uses: the cached request list
      and the remembered session user. */
  datatype Storage = Storage(cachedRequests: Option<seq<MarketingRequest>>, sessionUser: Option<User>)

  datatype State = State(
    isLoggedIn: bool,
    currentUser: Option<User>,
    view: View,
    loading: bool,
    requests: seq<MarketingRequest>,
    storage: Storage)

  /** What the store returned for the ordered `select *`: rows, or an error. */
  datatype ReadOutcome = Rows(rows: seq<Row>) | ReadError

  /** What a remote insert or update came back with. */
  datatype WriteOutcome = Written | StoreError(message: string) | NetworkFailure

  /** The remote write a handler issues. */
  datatype RemoteWrite = Insert(row: Row) | UpdateWhere(id: string, partial: Row)

  datatype Step = Step(state: State, write: RemoteWrite)

  /** The render guard: the main layout is shown only with a logged-in user. */
  predicate Authenticated(s: State) {
    s.isLoggedIn && s.currentUser.Some?
  }

  /** `data.map(mapFromDb)`, keeping the store's order. */
  function FromDbAll(rows: seq<Row>): (r: seq<MarketingRequest>)
    requires forall k :: 0 <= k < |rows| ==> IsStoredRow(rows[k])
    ensures |r| == |rows|
    ensures forall k :: 0 <= k < |rows| ==> r[k] == FromDb(rows[k])
  {
    if |rows| == 0 then [] else [FromDb(rows[0])] + FromDbAll(rows[1..])
  }

  /** The rows the store holds for a list of requests, one mapToDb row each. */
  function ToDbAll(requests: seq<MarketingRequest>): (rows: seq<Row>)
    ensures |rows| == |requests|
    ensures forall k :: 0 <= k < |requests| ==> rows[k] == ToDb(Whole(requests[k]))
  {
    if |requests| == 0 then [] else [ToDb(Whole(requests[0]))] + ToDbAll(requests[1..])
  }

  /** fetchData. Non-empty rows replace the list and the cache with the
      mapped rows, in the store's order. Empty rows and an error take the
      same path: the cached list, if there is one, replaces the list, and
      the cache is not written. Loading ends in every case; nothing else changes. */
  function FetchData(s: State, read: ReadOutcome): (t: State)
    requires read.Rows? ==> forall k :: 0 <= k < |read.rows| ==> IsStoredRow(read.rows[k])
    ensures !t.loading
    ensures t.isLoggedIn == s.isLoggedIn && t.currentUser == s.currentUser && t.view == s.view
    ensures t.storage.sessionUser == s.storage.sessionUser
    ensures read.Rows? && |read.rows| > 0 ==>
      && |t.requests| == |read.rows|
      && (forall k :: 0 <= k < |read.rows| ==> t.requests[k] == FromDb(read.rows[k]))
      && t.storage.cachedRequests == Some(t.requests)
    ensures read.ReadError? || |read.rows| == 0 ==>
      && t.storage == s.storage
      && t.requests == s.storage.cachedRequests.GetOr(s.requests)
  {
    var s1 := s.(loading := true);
    var s2 :=
      match read
      case Rows(rows) =>
        if |rows| > 0 then
          var mapped := FromDbAll(rows);
          s1.(requests := mapped, storage := s1.storage.(cachedRequests := Some(mapped)))
        else
          RestoreFromCache(s1)
      case ReadError => RestoreFromCache(s1);
    s2.(loading := false)
  }

  /** The fallback of fetchData: a cached list, when local storage holds one, becomes the list. */
  function RestoreFromCache(s: State): State {
    match s.storage.cachedRequests
    case Some(saved) => s.(requests := saved)
    case None => s
  }

  /** An error and an empty answer are indistinguishable to fetchData. */
  lemma EmptyRowsSameAsError(s: State)
    ensures FetchData(s, Rows([])) == FetchData(s, ReadError)
  {
  }

  /** After a refresh from the rows the store holds for a non-empty list,
      the component holds that list again, in the same order, and caches it. */
  lemma RefreshRestoresStoredList(s: State, list: seq<MarketingRequest>)
    requires |list| > 0
    ensures forall k :: 0 <= k < |ToDbAll(list)| ==> IsStoredRow(ToDbAll(list)[k])
    ensures FetchData(s, Rows(ToDbAll(list))).requests == list
    ensures FetchData(s, Rows(ToDbAll(list))).storage.cachedRequests == Some(list)
  {
    var rows := ToDbAll(list);
    forall k | 0 <= k < |rows|
      ensures IsStoredRow(rows[k]) && FromDb(rows[k]) == list[k]
    {
      RoundTrip(list[k]);
    }
  }

  /** A failed refresh right after a successful one leaves the list from the
      successful one: the cache it wrote is what the failure falls back to. */
  lemma FailedRefreshKeepsLastGood(s: State, rows: seq<Row>)
    requires |rows| > 0 && forall k :: 0 <= k < |rows| ==> IsStoredRow(rows[k])
    ensures FetchData(FetchData(s, Rows(rows)), ReadError).requests == FetchData(s, Rows(rows)).requests
  {
  }

  /** addRequest: the new request is prepended, the cache is overwritten with
      the same list, the view goes back to the dashboard and mapToDb of the
      request is inserted. The insert's outcome is only logged: the state is
      the same whatever the store answers, so a failed insert is not rolled back. */
  function AddRequest(s: State, newRequest: MarketingRequest, outcome: WriteOutcome): (step: Step)
    ensures step.state.requests == Requests.AddRequest(s.requests, newRequest)
    ensures step.state.storage.cachedRequests == Some(step.state.requests)
    ensures step.state.view == DASHBOARD
    ensures step.write == Insert(ToDb(Whole(newRequest)))
    ensures step.state.isLoggedIn == s.isLoggedIn && step.state.currentUser == s.currentUser
    ensures step.state.loading == s.loading && step.state.storage.sessionUser == s.storage.sessionUser
  {
    var updated := Requests.AddRequest(s.requests, newRequest);
    var t := s.(requests := updated, storage := s.storage.(cachedRequests := Some(updated)), view := DASHBOARD);
    var step := Step(t, Insert(ToDb(Whole(newRequest))));
    step
  }

  /** The inserted row is a well-formed stored row that reads back as the new request. */
  lemma InsertedRowReadsBack(s: State, newRequest: MarketingRequest, outcome: WriteOutcome)
    ensures IsStoredRow(AddRequest(s, newRequest, outcome).write.row)
    ensures FromDb(AddRequest(s, newRequest, outcome).write.row) == newRequest
  {
    RoundTrip(newRequest);
  }

  /** No rollback: the insert's outcome never reaches the state, so after a
      failed insert the list still starts with the new request. */
  lemma FailedInsertNotRolledBack(s: State, newRequest: MarketingRequest, message: string, o1: WriteOutcome, o2: WriteOutcome)
    ensures AddRequest(s, newRequest, o1).state == AddRequest(s, newRequest, o2).state
    ensures AddRequest(s, newRequest, StoreError(message)).state == AddRequest(s, newRequest, Written).state
    ensures AddRequest(s, newRequest, NetworkFailure).state.requests != s.requests
  {
    var r := AddRequest(s, newRequest, NetworkFailure).state.requests;
    assert |r| != |s.requests|;
  }

  /** updateRequestStatus: every record with `id == requestId` is rewritten,
      the cache is overwritten with the new list, and the update payload is
      sent for that id. The update's outcome is only logged. */
  function UpdateRequestStatus(s: State, requestId: string, status: RequestStatus, additionalData: Patch,
                               now: string, outcome: WriteOutcome): (step: Step)
    ensures step.state.requests == Requests.UpdateRequestStatus(s.requests, requestId, status, additionalData, now)
    ensures step.state.storage.cachedRequests == Some(step.state.requests)
    ensures step.write.UpdateWhere? && step.write.id == requestId
    ensures step.write.partial == Requests.UpdatePayload(status, additionalData, now)
    ensures step.state.isLoggedIn == s.isLoggedIn && step.state.currentUser == s.currentUser
    ensures step.state.view == s.view && step.state.loading == s.loading
    ensures step.state.storage.sessionUser == s.storage.sessionUser
  {
    var updated := Requests.UpdateRequestStatus(s.requests, requestId, status, additionalData, now);
    var t := s.(requests := updated, storage := s.storage.(cachedRequests := Some(updated)));
    var step := Step(t, UpdateWhere(requestId, Requests.UpdatePayload(status, additionalData, now)));
    step
  }

  /** The timestamp sent to the store is the one every rewritten record now carries. */
  lemma UpdateTimestampAgrees(s: State, requestId: string, status: RequestStatus, additionalData: Patch,
                              now: string, outcome: WriteOutcome, i: int)
    requires 0 <= i < |s.requests| && s.requests[i].id == requestId
    ensures var step := UpdateRequestStatus(s, requestId, status, additionalData, now, outcome);
            step.write.partial[UPDATED_AT] == Text(step.state.requests[i].updatedAt)
  {
  }

  /** handleLogin: the user is logged in; the session is remembered only
      when asked, and otherwise the stored session is left as it was. */
  function Login(s: State, user: User, remember: bool): (t: State)
    ensures Authenticated(t) && t.currentUser == Some(user)
    ensures t.storage.sessionUser == (if remember then Some(user) else s.storage.sessionUser)
    ensures t.requests == s.requests && t.view == s.view && t.loading == s.loading
    ensures t.storage.cachedRequests == s.storage.cachedRequests
  {
    var t := s.(currentUser := Some(user), isLoggedIn := true);
    if remember then t.(storage := t.storage.(sessionUser := Some(user))) else t
  }

  /** handleLogout: logged out, no current user, back to the dashboard, and
      the remembered session removed. The request list and its cache stay. */
  function Logout(s: State): (t: State)
    ensures !Authenticated(t) && !t.isLoggedIn && t.currentUser.None?
    ensures t.view == DASHBOARD && t.storage.sessionUser.None?
    ensures t.requests == s.requests && t.loading == s.loading
    ensures t.storage.cachedRequests == s.storage.cachedRequests
  {
    s.(isLoggedIn := false, currentUser := None, view := DASHBOARD, storage := s.storage.(sessionUser := None))
  }

  /** resetData, with the user's answer to the confirmation as `confirmed`:
      when confirmed, the list goes back to the built-in initial requests and
      the cache is removed; otherwise nothing changes. */
  function ResetData(s: State, confirmed: bool, initialRequests: seq<MarketingRequest>): (t: State)
    ensures confirmed ==> t.requests == initialRequests && t.storage.cachedRequests.None?
    ensures !confirmed ==> t == s
    ensures t.isLoggedIn == s.isLoggedIn && t.currentUser == s.currentUser && t.view == s.view
    ensures t.storage.sessionUser == s.storage.sessionUser && t.loading == s.loading
  {
    if confirmed then s.(requests := initialRequests, storage := s.storage.(cachedRequests := None)) else s
  }

  /** The component mounting with what local storage holds: a remembered
      session user is restored, then fetchData runs. */
  function Mount(storage: Storage, initialRequests: seq<MarketingRequest>, read: ReadOutcome): (t: State)
    requires read.Rows? ==> forall k :: 0 <= k < |read.rows| ==> IsStoredRow(read.rows[k])
    ensures Authenticated(t) <==> storage.sessionUser.Some?
    ensures t.isLoggedIn == storage.sessionUser.Some?
    ensures t.currentUser == storage.sessionUser
    ensures t.view == DASHBOARD && !t.loading
    ensures t.storage.sessionUser == storage.sessionUser
    ensures t.requests ==
      if read.Rows? && |read.rows| > 0 then FromDbAll(read.rows)
      else storage.cachedRequests.GetOr(initialRequests)
    ensures t.storage.cachedRequests ==
      if read.Rows? && |read.rows| > 0 then Some(FromDbAll(read.rows)) else storage.cachedRequests
  {
    var mounted := State(false, None, DASHBOARD, true, initialRequests, storage);
    var restored :=
      match storage.sessionUser
      case Some(user) => mounted.(currentUser := Some(user), isLoggedIn := true)
      case None => mounted;
    FetchData(restored, read)
  }

  /** A remembered login survives a reload; a logout does not. */
  lemma SessionAcrossReload(s: State, user: User, initialRequests: seq<MarketingRequest>, read: ReadOutcome)
    requires read.Rows? ==> forall k :: 0 <= k < |read.rows| ==> IsStoredRow(read.rows[k])
    ensures Mount(Login(s, user, true).storage, initialRequests, read).currentUser == Some(user)
    ensures !Authenticated(Mount(Logout(s).storage, initialRequests, read))
  {
  }

  /** A reload while the store is unreachable shows the list cached by the
      last mutation, an addition or a status update, whatever the built-in
      initial requests are and whatever the write's outcome was. */
  lemma ReloadOfflineShowsCachedList(s: State, newRequest: MarketingRequest, outcome: WriteOutcome,
                                     initialRequests: seq<MarketingRequest>, requestId: string,
                                     status: RequestStatus, additionalData: Patch, now: string)
    ensures var after := AddRequest(s, newRequest, outcome).state;
            Mount(after.storage, initialRequests, ReadError).requests == after.requests
    ensures var after := UpdateRequestStatus(s, requestId, status, additionalData, now, outcome).state;
            Mount(after.storage, initialRequests, ReadError).requests == after.requests
  {
  }

  /** A confirmed reset followed by a reload with the store unreachable or
      empty shows the built-in initial requests: the cache is gone, so
      nothing overrides them. */
  lemma ResetThenOfflineMountShowsInitial(s: State, initialRequests: seq<MarketingRequest>)
    ensures var after := ResetData(s, true, initialRequests);
            && Mount(after.storage, initialRequests, ReadError).requests == initialRequests
            && Mount(after.storage, initialRequests, Rows([])).requests == initialRequests
  {
  }
}
