/** The timeline screen: the sections it lists, what it renders, and its
    reaction to a failed notes query. */
module Timeline {
  import opened Base
  import opened Logger
  import opened Errors
  import opened Auth
  import opened Notes
  import opened Grouping

  /** What the screen renders. */
  datatype Screen = Blank | Spinner | LoadFailed(detail: string) | NoteList(items: seq<Item>)

  /** The grouped notes of the last query result (none before the first):
      together the groups hold the result's notes, each group newest first. */
  function GroupedResult(notes: Option<seq<Note>>, now: int, tzOffset: int, localeDate: int -> string): (r: seq<Group>)
    ensures notes.None? ==> r == []
    ensures notes.Some? ==> multiset(Flatten(r)) == multiset(notes.value)
    ensures notes.Some? ==> forall i :: 0 <= i < |r| ==> NewestFirst(r[i].notes, now)
  {
    if notes.None? then []
    else
      var sorted := SortNewestFirst(notes.value, now);
      var key := DateLabeller(now, tzOffset, localeDate);
      GroupedIsPermutation(sorted, key);
      GroupsNewestFirst(sorted, key, now);
      Grouped(sorted, key)
  }

  /** Nothing without a user and a non-empty token; a spinner while the first
      load runs; the error text after a failure; the sections otherwise. */
  function TimelineScreen(user: Option<User>, token: Option<string>, isLoading: bool, error: Option<ApiError>,
                          notes: Option<seq<Note>>, now: int, tzOffset: int, localeDate: int -> string): (v: Screen)
    ensures v == Blank <==> user.None? || token.None? || token.value == []
    ensures v.Spinner? <==> user.Some? && token.Some? && token.value != [] && isLoading
    ensures v.LoadFailed? <==> user.Some? && token.Some? && token.value != [] && !isLoading && error.Some?
    ensures v.LoadFailed? ==> v.detail == GetErrorMessage(error.value)
    ensures v.NoteList? ==> v.items == Sections(GroupedResult(notes, now, tzOffset, localeDate))
  {
    if user.None? || token.None? || token.value == [] then Blank
    else if isLoading then Spinner
    else if error.Some? then LoadFailed(GetErrorMessage(error.value))
    else NoteList(Sections(GroupedResult(notes, now, tzOffset, localeDate)))
  }

  /** The list holds one header per group plus one item per note of the
      query result, and every header is a distinct date label. */
  lemma TimelineSectionsCount(notes: seq<Note>, now: int, tzOffset: int, localeDate: int -> string)
    ensures var gs := GroupedResult(Some(notes), now, tzOffset, localeDate);
      |Sections(gs)| == |gs| + |notes|
      && forall i, j :: 0 <= i < j < |gs| ==> gs[i].title != gs[j].title
  {
    var key := DateLabeller(now, tzOffset, localeDate);
    var sorted := SortNewestFirst(notes, now);
    GroupedIsPermutation(sorted, key);
    GroupedByLabel(sorted, key);
    SectionsLength(Grouped(sorted, key));
  }

  /** The auth-error effect: a failed query whose error is an auth error
      ends the session exactly as `handleAuthError` does; any other error, or
      none, changes nothing. `cleared` is the outcome of clearing the keychain;
      the effect discards a rejection (`void handleAuthError()`). */
  method ReactToQueryError(session: AuthSession, log: LogBuffer, error: Option<ApiError>, cleared: bool, now: int)
    requires session.Valid() && log.Valid()
    modifies session, log
    ensures session.Valid() && log.Valid()
    ensures error.Some? && IsAuthError(error.value) ==>
      session.State() == LoggedOut(old(session.State()), cleared)
      && log.entries == LogoutLog(Appended(old(log.entries), Entry(Error, AuthErrorMessage, None, now)), cleared, now)
    ensures !(error.Some? && IsAuthError(error.value)) ==>
      session.State() == old(session.State()) && log.entries == old(log.entries)
  {
    if error.Some? && IsAuthError(error.value) {
      var _ := session.HandleAuthError(log, cleared, now);
    }
  }
}
