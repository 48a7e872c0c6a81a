/** ui/auth/ResetPasswordViewModel.kt over ResetPasswordUiState. */
module ResetPasswordViewModel {
  import opened Wrappers
  import opened Text
  import opened Api

  datatype ResetPasswordUiState = ResetPasswordUiState(
    isLoading: bool,
    successMessage: Option<string>,
    errorMessage: Option<string>,
    tokenInput: string,
    newPasswordInput: string,
    confirmPasswordInput: string)

  const Initial := ResetPasswordUiState(false, None, None, "", "", "")

  datatype Input = Token | NewPassword | ConfirmPassword

  function InputOf(s: ResetPasswordUiState, f: Input): string {
    match f
    case Token => s.tokenInput
    case NewPassword => s.newPasswordInput
    case ConfirmPassword => s.confirmPasswordInput
  }

  /** `onTokenInputChange`, `onNewPasswordInputChange`, `onConfirmPasswordInputChange`. */
  function OnInputChange(s: ResetPasswordUiState, f: Input, value: string): (r: ResetPasswordUiState)
    ensures InputOf(r, f) == value
    ensures forall g :: g != f ==> InputOf(r, g) == InputOf(s, g)
    ensures r.errorMessage.None? && r.successMessage.None?
    ensures r.isLoading == s.isLoading
  {
    var cleared := s.(errorMessage := None, successMessage := None);
    match f
    case Token => cleared.(tokenInput := value)
    case NewPassword => cleared.(newPasswordInput := value)
    case ConfirmPassword => cleared.(confirmPasswordInput := value)
  }

  const RequiredMessage := "All fields are required."
  const MismatchMessage := "New password and confirmation do not match."
  const DefaultSuccess := "Password reset successfully."
  const UnknownError := "Unknown error occurred."
  const UnparsableError := "An error occurred while parsing the error response."

  predicate AnyBlank(s: ResetPasswordUiState) {
    IsBlank(s.tokenInput) || IsBlank(s.newPasswordInput) || IsBlank(s.confirmPasswordInput)
  }

  function ResetCall(s: ResetPasswordUiState): Request {
    Call(Post, ResetPasswordPath, ResetPasswordPayload(s.tokenInput, s.newPasswordInput))
  }

  /** `performResetPassword()` up to the launch of the request. */
  function PerformResetPassword(s: ResetPasswordUiState): (r: Step<ResetPasswordUiState>)
    ensures r.request.Some? <==> !AnyBlank(s) && s.newPasswordInput == s.confirmPasswordInput
    ensures r.request.Some? ==> r.request.value == ResetCall(s)
    ensures r.request.None? ==> r.state.(errorMessage := s.errorMessage) == s
    ensures AnyBlank(s) ==> r.state.errorMessage == Some(RequiredMessage)
    ensures !AnyBlank(s) && s.newPasswordInput != s.confirmPasswordInput ==> r.state.errorMessage == Some(MismatchMessage)
    ensures r.request.Some? ==>
      && r.state.isLoading && r.state.errorMessage.None? && r.state.successMessage.None?
      && r.state.(isLoading := s.isLoading, errorMessage := s.errorMessage, successMessage := s.successMessage) == s
  {
    if AnyBlank(s) then Step(s.(errorMessage := Some(RequiredMessage)), None)
    else if s.newPasswordInput != s.confirmPasswordInput then Step(s.(errorMessage := Some(MismatchMessage)), None)
    else Step(s.(isLoading := true, errorMessage := None, successMessage := None), Some(ResetCall(s)))
  }

  /**
   * `parseApiError`: null exactly for a missing or blank body; otherwise the decoded `message`, with
   * fixed texts for a null message and for a parse exception.
   */
  function ParseApiError(body: Option<ErrorBody>): (r: Option<string>)
    ensures r.None? <==> IsNullOrBlank(TextOf(body))
    ensures r.Some? && body.value.decoded.Threw? ==> r == Some(UnparsableError)
    ensures r.Some? && body.value.decoded.NullObject? ==> r == Some(UnknownError)
    ensures r.Some? && body.value.decoded.Fields? ==> r == Some(body.value.decoded.message.GetOr(UnknownError))
  {
    if IsNullOrBlank(TextOf(body)) then None
    else
      match body.value.decoded
      case Threw(_) => Some(UnparsableError)
      case NullObject => Some(UnknownError)
      case Fields(message, _) => Some(message.GetOr(UnknownError))
  }

  function FailureMessage(o: Outcome<GenericSuccessResponse>): string
    requires !o.Ok?
  {
    match o
    case ErrResp(code, b) => ParseApiError(b).GetOr("Reset password failed: " + IntToString(code))
    case IOErr(m) => "Network error: " + Show(m)
    case HttpErr(code, _, b) => ParseApiError(b).GetOr("HTTP error: " + IntToString(code))
    case OtherErr(m) => "An error occurred: " + Show(m)
  }

  /** The coroutine's `try`/`catch`, applied to the state current when the call ends. */
  function CompleteResetPassword(s: ResetPasswordUiState, o: Outcome<GenericSuccessResponse>): (r: ResetPasswordUiState)
    ensures !r.isLoading
    ensures r.newPasswordInput == s.newPasswordInput && r.confirmPasswordInput == s.confirmPasswordInput
    ensures o.Ok? ==>
      && r.successMessage == Some(o.body.message.GetOr(DefaultSuccess))
      && r.errorMessage.None? && r.tokenInput == ""
    ensures !o.Ok? ==> r.successMessage.None? && r.errorMessage.Some? && r.tokenInput == s.tokenInput
    ensures o.ErrResp? ==>
      r.errorMessage == Some(ParseApiError(o.errorBody).GetOr("Reset password failed: " + IntToString(o.code)))
    ensures o.IOErr? ==> r.errorMessage == Some("Network error: " + Show(o.message))
    ensures o.HttpErr? ==> r.errorMessage == Some(ParseApiError(o.errorBody).GetOr("HTTP error: " + IntToString(o.code)))
    ensures o.OtherErr? ==> r.errorMessage == Some("An error occurred: " + Show(o.message))
  {
    if o.Ok? then
      s.(isLoading := false, successMessage := Some(o.body.message.GetOr(DefaultSuccess)), errorMessage := None, tokenInput := "")
    else
      s.(isLoading := false, errorMessage := Some(FailureMessage(o)), successMessage := None)
  }

  /** A missing or blank error body always shows the "Reset password failed: <code>" fallback. */
  lemma BlankBodyShowsCode(s: ResetPasswordUiState, code: int, body: Option<ErrorBody>)
    ensures CompleteResetPassword(s, ErrResp(code, body)).errorMessage == Some("Reset password failed: " + IntToString(code))
      <== IsNullOrBlank(TextOf(body))
  {
  }

  /** After a successful reset the token field is empty, so the same form cannot be submitted again as it stands. */
  lemma ResubmitAfterSuccessIsRejected(s: ResetPasswordUiState, body: GenericSuccessResponse)
    ensures var again := PerformResetPassword(CompleteResetPassword(s, Ok(body)));
      again.request.None? && again.state.errorMessage == Some(RequiredMessage)
  {
  }
}
