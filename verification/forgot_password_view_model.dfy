/** ui/auth/ForgotPasswordViewModel.kt over ForgotPasswordUiState. */
module ForgotPasswordViewModel {
  import opened Wrappers
  import opened Text
  import opened Api

  datatype ForgotPasswordUiState = ForgotPasswordUiState(
    isLoading: bool,
    successMessage: Option<string>,
    errorMessage: Option<string>,
    emailInt: string)

  const Initial := ForgotPasswordUiState(false, None, None, "")

  const InvalidEmailMessage := "Please enter a valid email address"
  const SentPrefix := "Password reset link sent to "
  const EmptyBodyMessage := "An unknown error occurred"
  const ParseFailurePrefix := "Failed to parse error response: "

  /** `onEMailChanged(email)` */
  function OnEMailChanged(s: ForgotPasswordUiState, email: string): (r: ForgotPasswordUiState)
    ensures r.emailInt == email
    ensures r.errorMessage.None? && r.successMessage.None?
    ensures r.isLoading == s.isLoading
  {
    s.(emailInt := email, successMessage := None, errorMessage := None)
  }

  function ForgotCall(email: string): Request {
    Call(Post, ForgotPasswordPath, ForgotPasswordPayload(email))
  }

  /** `performForgotPasswordRequest()` up to the launch of the request. */
  function PerformForgotPasswordRequest(s: ForgotPasswordUiState): (r: Step<ForgotPasswordUiState>)
    // the blank check is subsumed by the pattern
    ensures r.request.Some? <==> EmailAddress(s.emailInt)
    ensures r.request.Some? ==> r.request.value == ForgotCall(s.emailInt)
    ensures r.request.None? ==> r.state == s.(errorMessage := Some(InvalidEmailMessage))
    ensures r.request.Some? ==>
      && r.state.isLoading && r.state.errorMessage.None? && r.state.successMessage.None?
      && r.state.emailInt == s.emailInt
  {
    if IsBlank(s.emailInt) || !EmailAddress(s.emailInt) then
      Step(s.(errorMessage := Some(InvalidEmailMessage)), None)
    else
      Step(s.(isLoading := true, successMessage := None, errorMessage := None), Some(ForgotCall(s.emailInt)))
  }

  /**
   * `parseApiError`: a fixed text for a missing or empty body, a prefixed text for a parse exception,
   * and otherwise the decoded `error`, which Gson leaves null when the field is missing. A null decoded
   * object makes `.error` throw inside the `try`; that exception's message is platform text, taken as absent.
   */
  function ParseApiError(body: Option<ErrorBody>): (r: Option<string>)
    ensures IsNullOrEmpty(TextOf(body)) ==> r == Some(EmptyBodyMessage)
    ensures r.None? <==> !IsNullOrEmpty(TextOf(body)) && body.value.decoded.Fields? && body.value.decoded.error.None?
    ensures !IsNullOrEmpty(TextOf(body)) && body.value.decoded.Threw? ==>
      r == Some(ParseFailurePrefix + body.value.decoded.reason.GetOr("Unknown error"))
    ensures !IsNullOrEmpty(TextOf(body)) && body.value.decoded.Fields? ==> r == body.value.decoded.error
  {
    if IsNullOrEmpty(TextOf(body)) then Some(EmptyBodyMessage)
    else
      match body.value.decoded
      case Threw(reason) => Some(ParseFailurePrefix + reason.GetOr("Unknown error"))
      case NullObject => Some(ParseFailurePrefix + "Unknown error")
      case Fields(_, error) => error
  }

  /** The coroutine's `try`/`catch`; `submitted` is the email captured when the request was made. */
  function CompleteForgotPassword(s: ForgotPasswordUiState, submitted: string, o: Outcome<GenericSuccessResponse>)
    : (r: ForgotPasswordUiState)
    ensures !r.isLoading
    ensures o.Ok? ==> r.successMessage == Some(SentPrefix + submitted) && r.errorMessage.None? && r.emailInt == ""
    ensures o.ErrResp? ==>
      r.errorMessage == ParseApiError(o.errorBody) && r.successMessage.None? && r.emailInt == s.emailInt
    // every exception, IOException or not, is reported as a network error
    ensures o.Thrown() ==>
      && r.errorMessage == Some("Network error: " + Show(o.ThrownMessage()))
      && r.successMessage == s.successMessage && r.emailInt == s.emailInt
  {
    match o
    case Ok(_) => s.(successMessage := Some(SentPrefix + submitted), isLoading := false, errorMessage := None, emailInt := "")
    case ErrResp(_, b) => s.(errorMessage := ParseApiError(b), isLoading := false, successMessage := None)
    case _ => s.(errorMessage := Some("Network error: " + Show(o.ThrownMessage())), isLoading := false)
  }

  /** The success message names the address that was submitted, even if the field was edited while loading. */
  lemma SuccessNamesSubmittedAddress(s: ForgotPasswordUiState, edited: string, body: GenericSuccessResponse)
    requires PerformForgotPasswordRequest(s).request.Some?
    ensures var loading := OnEMailChanged(PerformForgotPasswordRequest(s).state, edited);
      CompleteForgotPassword(loading, s.emailInt, Ok(body)).successMessage == Some(SentPrefix + s.emailInt)
  {
  }
}
