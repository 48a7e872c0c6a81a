/** ui/auth/SignupViewModel.kt over SignupUiState. */
module SignupViewModel {
  import opened Wrappers
  import opened Text
  import opened Api

  datatype SignupUiState = SignupUiState(
    isLoading: bool,
    successMessage: Option<string>,
    errorMessage: Option<string>,
    usernameInput: string,
    emailInput: string,
    passwordInput: string,
    confirmPasswordInput: string,
    addressInput: string,
    genderInput: string)

  const Initial := SignupUiState(false, None, None, "", "", "", "", "", "")

  /** The six text fields of the form. */
  datatype Input = Username | Email | Password | ConfirmPassword | Address | Gender

  function InputOf(s: SignupUiState, f: Input): string {
    match f
    case Username => s.usernameInput
    case Email => s.emailInput
    case Password => s.passwordInput
    case ConfirmPassword => s.confirmPasswordInput
    case Address => s.addressInput
    case Gender => s.genderInput
  }

  /** `onUsernameChange`, `onEmailChange`, ... `onGenderChange`: one field set, both messages cleared, nothing else touched. */
  function OnInputChange(s: SignupUiState, f: Input, value: string): (r: SignupUiState)
    ensures InputOf(r, f) == value
    ensures forall g :: g != f ==> InputOf(r, g) == InputOf(s, g)
    ensures r.errorMessage.None? && r.successMessage.None?
    ensures r.isLoading == s.isLoading
  {
    var cleared := s.(errorMessage := None, successMessage := None);
    match f
    case Username => cleared.(usernameInput := value)
    case Email => cleared.(emailInput := value)
    case Password => cleared.(passwordInput := value)
    case ConfirmPassword => cleared.(confirmPasswordInput := value)
    case Address => cleared.(addressInput := value)
    case Gender => cleared.(genderInput := value)
  }

  const RequiredMessage := "Username, email, and password are required."
  const InvalidEmailMessage := "Invalid email format."
  const MismatchMessage := "Passwords do not match."

  predicate AnyRequiredBlank(s: SignupUiState) {
    IsBlank(s.usernameInput) || IsBlank(s.emailInput) || IsBlank(s.passwordInput)
  }

  /** Every client-side check passes. */
  predicate Valid(s: SignupUiState) {
    && !IsBlank(s.usernameInput) && !IsBlank(s.emailInput) && !IsBlank(s.passwordInput)
    && EmailAddress(s.emailInput)
    && s.passwordInput == s.confirmPasswordInput
  }

  /** The request `performSignup` sends for a state: all five fields, address and gender as typed. */
  function SignupCall(s: SignupUiState): Request {
    Call(Post, SignupPath, SignupPayload(s.usernameInput, s.emailInput, s.passwordInput, s.addressInput, s.genderInput))
  }

  /** `performSignup()` up to the launch of the request. */
  function PerformSignup(s: SignupUiState): (r: Step<SignupUiState>)
    ensures r.request.Some? <==> Valid(s)
    ensures r.request.Some? ==> r.request.value == SignupCall(s)
    // a rejection changes nothing but the error message ...
    ensures r.request.None? ==> r.state.(errorMessage := s.errorMessage) == s
    // ... which names the first check that fails
    ensures AnyRequiredBlank(s) ==> r.state.errorMessage == Some(RequiredMessage)
    ensures !AnyRequiredBlank(s) && !EmailAddress(s.emailInput) ==> r.state.errorMessage == Some(InvalidEmailMessage)
    ensures !AnyRequiredBlank(s) && EmailAddress(s.emailInput) && s.passwordInput != s.confirmPasswordInput ==>
      r.state.errorMessage == Some(MismatchMessage)
    // acceptance enters loading with both messages cleared and the inputs kept
    ensures r.request.Some? ==>
      && r.state.isLoading && r.state.errorMessage.None? && r.state.successMessage.None?
      && r.state.(isLoading := s.isLoading, errorMessage := s.errorMessage, successMessage := s.successMessage) == s
  {
    if AnyRequiredBlank(s) then Step(s.(errorMessage := Some(RequiredMessage)), None)
    else if !EmailAddress(s.emailInput) then Step(s.(errorMessage := Some(InvalidEmailMessage)), None)
    else if s.passwordInput != s.confirmPasswordInput then Step(s.(errorMessage := Some(MismatchMessage)), None)
    else Step(s.(isLoading := true, errorMessage := None, successMessage := None), Some(SignupCall(s)))
  }

  /** `parseApiError`: the `message` of the decoded ApiErrorResponse; null for no body, a null object or a parse exception. */
  function ParseApiError(body: Option<ErrorBody>): (r: Option<string>)
    ensures r.Some? <==> body.Some? && body.value.decoded.Fields? && body.value.decoded.message.Some?
    ensures r.Some? ==> r == body.value.decoded.message
  {
    match body
    case None => None
    case Some(b) =>
      match b.decoded
      case Fields(message, _) => message
      case _ => None
  }

  /** The error message each failing outcome leaves. */
  function FailureMessage(o: Outcome<SignupResponse>): string
    requires !o.Ok?
  {
    match o
    case ErrResp(code, b) => ParseApiError(b).GetOr("Signup failed: " + IntToString(code))
    case IOErr(m) => "Network error: " + Show(m)
    case HttpErr(code, _, b) => ParseApiError(b).GetOr("HTTP error: " + IntToString(code))
    case OtherErr(m) => "An unexpected error occurred: " + Show(m)
  }

  /** The coroutine's `try`/`catch`/`finally` applied to the state current when the call ends. */
  function CompleteSignup(s: SignupUiState, o: Outcome<SignupResponse>): (r: SignupUiState)
    ensures !r.isLoading
    ensures o.Ok? ==>
      && r.successMessage == o.body.message && r.errorMessage.None?
      && forall f :: InputOf(r, f) == ""
    ensures !o.Ok? ==>
      && r.successMessage.None? && r.errorMessage.Some?
      && forall f :: InputOf(r, f) == InputOf(s, f)
    ensures o.ErrResp? ==>
      r.errorMessage == Some(ParseApiError(o.errorBody).GetOr("Signup failed: " + IntToString(o.code)))
    ensures o.IOErr? ==> r.errorMessage == Some("Network error: " + Show(o.message))
    ensures o.HttpErr? ==> r.errorMessage == Some(ParseApiError(o.errorBody).GetOr("HTTP error: " + IntToString(o.code)))
    ensures o.OtherErr? ==> r.errorMessage == Some("An unexpected error occurred: " + Show(o.message))
  {
    var updated :=
      if o.Ok? then
        s.(isLoading := false, successMessage := o.body.message, errorMessage := None,
           usernameInput := "", emailInput := "", passwordInput := "", confirmPasswordInput := "",
           addressInput := "", genderInput := "")
      else
        s.(isLoading := false, errorMessage := Some(FailureMessage(o)), successMessage := None);
    // finally { isLoading = false }
    updated.(isLoading := false)
  }

  /** A successful signup leaves the form as it was at construction, showing only the server's message. */
  lemma SuccessResetsForm(s: SignupUiState, body: SignupResponse)
    ensures CompleteSignup(s, Ok(body)) == Initial.(successMessage := body.message)
  {
  }

  /** Two states with the same inputs are judged alike and produce the same request. */
  lemma SameInputsSameRequest(a: SignupUiState, b: SignupUiState)
    requires forall f :: InputOf(a, f) == InputOf(b, f)
    ensures Valid(a) == Valid(b)
    ensures SignupCall(a) == SignupCall(b)
  {
    assert a.usernameInput == InputOf(a, Username) == InputOf(b, Username) == b.usernameInput;
    assert a.emailInput == InputOf(a, Email) == InputOf(b, Email) == b.emailInput;
    assert a.passwordInput == InputOf(a, Password) == InputOf(b, Password) == b.passwordInput;
    assert a.confirmPasswordInput == InputOf(a, ConfirmPassword) == InputOf(b, ConfirmPassword) == b.confirmPasswordInput;
    assert a.addressInput == InputOf(a, Address) == InputOf(b, Address) == b.addressInput;
    assert a.genderInput == InputOf(a, Gender) == InputOf(b, Gender) == b.genderInput;
  }

  /** A failed signup keeps what was typed, so submitting again sends the very same request. */
  lemma FailedSignupResubmits(s: SignupUiState, o: Outcome<SignupResponse>)
    requires Valid(s) && !o.Ok?
    ensures PerformSignup(CompleteSignup(PerformSignup(s).state, o)).request == Some(SignupCall(s))
  {
    var loading := PerformSignup(s).state;
    var after := CompleteSignup(loading, o);
    assert forall f :: InputOf(loading, f) == InputOf(s, f);
    SameInputsSameRequest(after, s);
  }
}
