/**
 * ui/auth/LoginViewModel.kt. The state has the fields the view model and its test use
 * (`receivedToken`, `loggedInUser`); LoginUiState.kt declares `successToken` instead.
 */
module LoginViewModel {
  import opened Wrappers
  import opened Text
  import opened Api
  import opened UserPreferences

  datatype LoginUiState = LoginUiState(
    isLoading: bool,
    receivedToken: Option<string>,
    loggedInUser: Option<UserDto>,
    loginSuccess: bool,
    errorMessage: Option<string>,
    usernameOrEmailInput: string,
    passwordInput: string)

  const Initial := LoginUiState(false, None, None, false, None, "", "")

  datatype Input = UsernameOrEmail | Password

  function InputOf(s: LoginUiState, f: Input): string {
    match f
    case UsernameOrEmail => s.usernameOrEmailInput
    case Password => s.passwordInput
  }

  /** `onUsernameOrEmailChange`, `onPasswordChange`: one field set, the error and the received token cleared. */
  function OnInputChange(s: LoginUiState, f: Input, value: string): (r: LoginUiState)
    ensures InputOf(r, f) == value
    ensures forall g :: g != f ==> InputOf(r, g) == InputOf(s, g)
    ensures r.errorMessage.None? && r.receivedToken.None?
    ensures r.isLoading == s.isLoading && r.loginSuccess == s.loginSuccess && r.loggedInUser == s.loggedInUser
  {
    var cleared := s.(errorMessage := None, receivedToken := None);
    match f
    case UsernameOrEmail => cleared.(usernameOrEmailInput := value)
    case Password => cleared.(passwordInput := value)
  }

  const RequiredMessage := "Username or email and password are required."
  const LoginFailed := "Login failed"
  const NetworkError := "Network error. Please try again."
  const UnexpectedError := "An unexpected error occurred."

  function LoginCall(s: LoginUiState): Request {
    Call(Post, LoginPath, LoginPayload(s.usernameOrEmailInput, s.passwordInput))
  }

  /** `performLogin()` up to the launch of the request. */
  function PerformLogin(s: LoginUiState): (r: Step<LoginUiState>)
    ensures r.request.Some? <==> !IsBlank(s.usernameOrEmailInput) && !IsBlank(s.passwordInput)
    ensures r.request.Some? ==> r.request.value == LoginCall(s)
    ensures r.state.receivedToken.None?
    ensures r.request.None? ==>
      && r.state.errorMessage == Some(RequiredMessage)
      && r.state.(errorMessage := s.errorMessage, receivedToken := s.receivedToken) == s
    ensures r.request.Some? ==>
      && r.state.isLoading && r.state.errorMessage.None?
      && r.state.(isLoading := s.isLoading, errorMessage := s.errorMessage, receivedToken := s.receivedToken) == s
  {
    if IsBlank(s.usernameOrEmailInput) || IsBlank(s.passwordInput) then
      Step(s.(errorMessage := Some(RequiredMessage), receivedToken := None), None)
    else
      Step(s.(isLoading := true, errorMessage := None, receivedToken := None), Some(LoginCall(s)))
  }

  /** `parseApiError`: the `error` of the decoded ApiErrorResponse; null for no body, a null object or a parse exception. */
  function ParseApiError(body: Option<ErrorBody>): (r: Option<string>)
    ensures r.Some? <==> body.Some? && body.value.decoded.Fields? && body.value.decoded.error.Some?
    ensures r.Some? ==> r == body.value.decoded.error
  {
    match body
    case None => None
    case Some(b) =>
      match b.decoded
      case Fields(_, error) => error
      case _ => None
  }

  /** What a completed login leaves: the view-model state and the preferences store. */
  datatype Completion = Completion(state: LoginUiState, store: Store)

  /** The call returned a body with a token: the one outcome that logs in. */
  predicate Authenticated(o: Outcome<LoginResponse>) {
    o.Ok? && o.body.token.Some?
  }

  /**
   * The coroutine of `performLogin`, ending with `_uiState.value = currentState.copy(...)`: every state
   * is built from `snapshot`, the state read when the login was submitted. A body without a token
   * makes `saveAuthToken(token)` fail its non-null parameter check, which the generic catch reports.
   */
  function CompleteLogin(snapshot: LoginUiState, o: Outcome<LoginResponse>, store: Store): (r: Completion)
    ensures !r.state.isLoading
    ensures forall f :: InputOf(r.state, f) == InputOf(snapshot, f)
    ensures r.state.loginSuccess <==> Authenticated(o)
    ensures r.state.errorMessage.None? <==> Authenticated(o)
    ensures Authenticated(o) ==>
      && r.store == SaveAuthToken(store, o.body.token.value)
      && r.state.receivedToken == o.body.token
      && r.state.loggedInUser == o.body.user
    ensures !Authenticated(o) ==>
      r.store == store && r.state.receivedToken.None? && r.state.loggedInUser == snapshot.loggedInUser
    ensures o.ErrResp? ==> r.state.errorMessage == Some(ParseApiError(o.errorBody).GetOr(LoginFailed))
    ensures o.IOErr? ==> r.state.errorMessage == Some(NetworkError)
    ensures o.HttpErr? ==> r.state.errorMessage == Some(ParseApiError(o.errorBody).GetOr("HTTP error: " + IntToString(o.code)))
    ensures o.OtherErr? || (o.Ok? && o.body.token.None?) ==> r.state.errorMessage == Some(UnexpectedError)
  {
    var failed := (message: string) =>
      snapshot.(isLoading := false, errorMessage := Some(message), receivedToken := None, loginSuccess := false);
    match o
    case Ok(body) =>
      (match body.token
       case Some(token) =>
         Completion(
           snapshot.(isLoading := false, receivedToken := Some(token), loggedInUser := body.user,
                     loginSuccess := true, errorMessage := None),
           SaveAuthToken(store, token))
       case None => Completion(failed(UnexpectedError), store))
    case ErrResp(_, b) => Completion(failed(ParseApiError(b).GetOr(LoginFailed)), store)
    case IOErr(_) => Completion(failed(NetworkError), store)
    case HttpErr(code, _, b) => Completion(failed(ParseApiError(b).GetOr("HTTP error: " + IntToString(code))), store)
    case OtherErr(_) => Completion(failed(UnexpectedError), store)
  }

  /** `onLoginNavigated()`: only the success flag is reset. */
  function OnLoginNavigated(s: LoginUiState): (r: LoginUiState)
    ensures !r.loginSuccess
    ensures r.(loginSuccess := s.loginSuccess) == s
  {
    s.(loginSuccess := false)
  }

  /** After completion the form shows exactly what was submitted, whatever was typed while loading. */
  lemma CompletionShowsSubmittedInputs(s: LoginUiState, o: Outcome<LoginResponse>, store: Store)
    requires PerformLogin(s).request.Some?
    ensures LoginCall(CompleteLogin(s, o, store).state) == PerformLogin(s).request.value
  {
    var r := CompleteLogin(s, o, store).state;
    assert r.usernameOrEmailInput == InputOf(r, UsernameOrEmail);
    assert r.passwordInput == InputOf(r, Password);
  }

  /** A successful login stores the token, so the next read of the preferences returns it. */
  lemma SuccessfulLoginStoresToken(s: LoginUiState, o: Outcome<LoginResponse>, store: Store)
    requires Authenticated(o) && store.fault.Healthy?
    ensures GetAuthToken(CompleteLogin(s, o, store).store) == Value(o.body.token)
  {
  }

  // ---- The scenarios of LoginViewModelTest ----

  lemma BlankInputsScenario()
    ensures var s := OnInputChange(OnInputChange(Initial, UsernameOrEmail, ""), Password, "");
      var step := PerformLogin(s);
      && step.request.None?
      && step.state.errorMessage == Some(RequiredMessage)
      && step.state.receivedToken.None?
  {
  }

  lemma CorrectCredentialsScenario(store: Store)
    ensures var user := UserDto(1, "testuser", "abc@gmail.com", Some("123 Main St"), Some("Male"), "2023-10-01T12:00:00Z");
      var s := OnInputChange(OnInputChange(Initial, UsernameOrEmail, "user"), Password, "pass");
      var r := CompleteLogin(s, Ok(LoginResponse(Some("Login success"), Some("token123"), Some(user))), store).state;
      && PerformLogin(s).request.Some?
      && r.receivedToken == Some("token123") && r.loginSuccess && r.loggedInUser == Some(user)
      && r.errorMessage.None? && !r.isLoading
  {
    var s := OnInputChange(OnInputChange(Initial, UsernameOrEmail, "user"), Password, "pass");
    assert !IsWhitespace('u') && !IsWhitespace('p');
    assert s.usernameOrEmailInput[0] == 'u' && s.passwordInput[0] == 'p';
  }

  lemma ApiErrorScenario(store: Store)
    ensures var body := ErrorBody("{\"error\":\"Invalid credentials\"}", Fields(None, Some("Invalid credentials")));
      var s := OnInputChange(OnInputChange(Initial, UsernameOrEmail, "user"), Password, "wrongpass");
      var r := CompleteLogin(s, ErrResp(401, Some(body)), store).state;
      && r.errorMessage == Some("Invalid credentials") && r.receivedToken.None? && !r.loginSuccess && !r.isLoading
  {
  }

  lemma NavigatedScenario()
    ensures var s := OnInputChange(OnInputChange(Initial, UsernameOrEmail, "user"), Password, "pass");
      !OnLoginNavigated(s.(loginSuccess := true)).loginSuccess
  {
  }
}
