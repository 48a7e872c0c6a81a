/** ui/auth/ProfileViewModel.kt over ProfileUiState and the preferences store. */
module ProfileViewModel {
  import opened Wrappers
  import opened Text
  import opened Api
  import opened UserPreferences

  datatype ProfileUiState = ProfileUiState(isLoading: bool, userProfile: Option<UserDto>, errorMessage: Option<string>)

  const Initial := ProfileUiState(false, None, None)

  const NotAuthenticated := "User not authenticated"
  const FetchFailed := "Failed to fetch user profile"

  /** The synchronous start of `fetchUserProfile()`. */
  function FetchUserProfile(s: ProfileUiState): (r: ProfileUiState)
    ensures r.isLoading && r.errorMessage.None? && r.userProfile == s.userProfile
  {
    s.(isLoading := true, errorMessage := None)
  }

  /** The state right after construction: `init` has started one fetch. */
  function Constructed(): (r: ProfileUiState)
    ensures r.isLoading && r.errorMessage.None? && r.userProfile.None?
  {
    FetchUserProfile(Initial)
  }

  /** The store holds a non-empty token that a read returns. */
  predicate HasUsableToken(store: Store) {
    store.fault.Healthy? && Slot(store).Some? && Slot(store).value != ""
  }

  function ProfileCall(): Request {
    Call(Get, ProfilePath, NoPayload)
  }

  /**
   * The coroutine's token check: `getAuthTokenOnce()` (the repository's `getAuthToken`) runs before the
   * `try`, so an exception other than an IOException escapes the coroutine and leaves the state as it is.
   */
  function CheckToken(s: ProfileUiState, store: Store): (r: Step<ProfileUiState>)
    ensures r.request.Some? <==> HasUsableToken(store)
    ensures r.request.Some? ==> r == Step(s, Some(ProfileCall()))
    ensures store.fault.OtherFailure? ==> r == Step(s, None)
    ensures !store.fault.OtherFailure? && !HasUsableToken(store) ==>
      && r.state.errorMessage == Some(NotAuthenticated) && !r.state.isLoading
      && r.state.userProfile == s.userProfile && r.request.None?
  {
    match GetAuthToken(store)
    case Raised(_) => Step(s, None)
    case Value(token) =>
      if IsNullOrEmpty(token) then Step(s.(errorMessage := Some(NotAuthenticated), isLoading := false), None)
      else Step(s, Some(ProfileCall()))
  }

  /** `parseApiError`: null for a missing or empty body, the decoded `error` otherwise, the raw body if decoding throws. */
  function ParseApiError(body: Option<ErrorBody>): (r: Option<string>)
    ensures IsNullOrEmpty(TextOf(body)) ==> r.None?
    ensures !IsNullOrEmpty(TextOf(body)) && body.value.decoded.Threw? ==> r == Some(body.value.text)
    ensures !IsNullOrEmpty(TextOf(body)) && body.value.decoded.Fields? ==> r == body.value.decoded.error
    ensures body.Some? && body.value.decoded.NullObject? ==> r.None?
  {
    if IsNullOrEmpty(TextOf(body)) then None
    else
      match body.value.decoded
      case Threw(_) => Some(body.value.text)
      case NullObject => None
      case Fields(_, error) => error
  }

  function FailureMessage(o: Outcome<ProfileResponse>): string
    requires !o.Ok?
  {
    match o
    case ErrResp(_, b) => ParseApiError(b).GetOr(FetchFailed)
    case IOErr(m) => "Network error: " + Show(m)
    case HttpErr(_, status, b) => ParseApiError(b).GetOr("HTTP error: " + status)
    case OtherErr(m) => "Unexpected error: " + Show(m)
  }

  /** The coroutine's `try`/`catch` around `authService.getUserProfile()`. */
  function CompleteProfile(s: ProfileUiState, o: Outcome<ProfileResponse>): (r: ProfileUiState)
    ensures !r.isLoading
    ensures o.Ok? ==> r.userProfile == o.body.user && r.errorMessage.None?
    ensures !o.Ok? ==> r.userProfile == s.userProfile && r.errorMessage.Some?
    ensures o.ErrResp? ==> r.errorMessage == Some(ParseApiError(o.errorBody).GetOr(FetchFailed))
    ensures o.IOErr? ==> r.errorMessage == Some("Network error: " + Show(o.message))
    ensures o.HttpErr? ==> r.errorMessage == Some(ParseApiError(o.errorBody).GetOr("HTTP error: " + o.status))
    ensures o.OtherErr? ==> r.errorMessage == Some("Unexpected error: " + Show(o.message))
  {
    if o.Ok? then s.(userProfile := o.body.user, isLoading := false, errorMessage := None)
    else s.(errorMessage := Some(FailureMessage(o)), isLoading := false)
  }

  /** `logout()`: the stored token is removed and nothing else in the store changes. */
  function Logout(store: Store): (r: Store)
    ensures Slot(r).None?
    ensures r.fault == store.fault
    ensures forall k :: k in store.prefs && k != AuthTokenKey ==> k in r.prefs && r.prefs[k] == store.prefs[k]
  {
    ClearAuthToken(store)
  }

  /** After logout a fetch ends in "User not authenticated" without any request, unless the read itself throws. */
  lemma FetchAfterLogoutIsUnauthenticated(s: ProfileUiState, store: Store)
    requires !store.fault.OtherFailure?
    ensures var step := CheckToken(FetchUserProfile(s), Logout(store));
      step.request.None? && step.state.errorMessage == Some(NotAuthenticated) && !step.state.isLoading
  {
  }
}
