/**
 * What the client's view models see of the network: the request DTOs as wire requests, the response
 * DTOs, the outcome of one Retrofit call, and what Gson makes of an error body.
 */
module Api {
  import opened Wrappers
  import opened Text

  // ---- Response DTOs (fields Gson may leave null are options) ----

  /** UserDto: the user record the server sends back. */
  datatype UserDto = UserDto(
    id: int,
    username: string,
    email: string,
    address: Option<string>,
    gender: Option<string>,
    createdAt: string)

  datatype SignupResponse = SignupResponse(message: Option<string>)

  /** LoginResponse declares `token` non-null, but Gson leaves it null when the JSON has no token field. */
  datatype LoginResponse = LoginResponse(message: Option<string>, token: Option<string>, user: Option<UserDto>)

  datatype GenericSuccessResponse = GenericSuccessResponse(message: Option<string>)

  datatype ProfileResponse = ProfileResponse(user: Option<UserDto>)

  // ---- Error bodies ----

  /** `Gson().fromJson(text, ApiErrorResponse::class.java)`: it throws, returns null (empty or `null`
      document), or yields an object whose `message` and `error` fields may each be null. */
  datatype Decoded = Threw(reason: Option<string>) | NullObject | Fields(message: Option<string>, error: Option<string>)

  /** `response.errorBody()?.string()` when present: the raw text together with its decoding. */
  datatype ErrorBody = ErrorBody(text: string, decoded: Decoded)

  /** The text of an optional error body, as the Kotlin `String?` the view models hold. */
  function TextOf(body: Option<ErrorBody>): Option<string> {
    match body
    case None => None
    case Some(b) => Some(b.text)
  }

  // ---- Outcome of one call ----

  /**
   * How one suspend call of `AuthService` ends, as a view model's `try` sees it:
   * - `Ok(body)`: `response.isSuccessful && response.body() != null`;
   * - `ErrResp(code, errorBody)`: any other response (a successful one without a body has no error body);
   * - `IOErr`, `HttpErr`, `OtherErr`: an `IOException`, a `retrofit2.HttpException`, any other exception.
   */
  datatype Outcome<T> =
    | Ok(body: T)
    | ErrResp(code: int, errorBody: Option<ErrorBody>)
    | IOErr(message: Option<string>)
    | HttpErr(code: int, status: string, errorBody: Option<ErrorBody>)
    | OtherErr(message: Option<string>)
  {
    predicate Thrown() {
      IOErr? || HttpErr? || OtherErr?
    }

    /** `e.message` of the exception behind an exceptional outcome; Retrofit's HttpException says "HTTP <code> <status>". */
    function ThrownMessage(): Option<string>
      requires Thrown()
    {
      match this
      case IOErr(m) => m
      case HttpErr(code, status, _) => Some("HTTP " + IntToString(code) + " " + status)
      case OtherErr(m) => m
    }
  }

  /** An HttpException's message names its status code in a form that reads back, followed by the status text. */
  lemma HttpMessageNamesCode<T>(o: Outcome<T>)
    requires o.HttpErr?
    ensures o.ThrownMessage().Some?
    ensures var m := o.ThrownMessage().value;
      var n := |IntToString(o.code)|;
      && |m| == 5 + n + 1 + |o.status|
      && m[..5] == "HTTP "
      && ParseInt(m[5..5 + n]) == Some(o.code)
      && m[5 + n..] == " " + o.status
  {
    var digits := IntToString(o.code);
    var m := "HTTP " + digits + " " + o.status;
    assert m[5..5 + |digits|] == digits;
    assert m[5 + |digits|..] == " " + o.status;
    IntToStringRoundTrip(o.code);
  }

  // ---- Requests ----

  datatype Header = Header(name: string, value: string)

  datatype Method = Get | Post

  /** The request DTOs: SignupRequest, LoginRequest, ForgotPasswordRequest, ResetPasswordRequest. */
  datatype Payload =
    | SignupPayload(username: string, email: string, password: string, address: string, gender: string)
    | LoginPayload(usernameOrEmail: string, password: string)
    | ForgotPasswordPayload(email: string)
    | ResetPasswordPayload(token: string, newPassword: string)
    | NoPayload

  /** An HTTP request as OkHttp's interceptors see it. */
  datatype Request = Request(verb: Method, path: string, headers: seq<Header>, payload: Payload)

  // The endpoints of the AuthService interface.
  const SignupPath := "api/auth/signup"
  const LoginPath := "api/auth/login"
  const ForgotPasswordPath := "api/auth/forgot-password"
  const ResetPasswordPath := "api/auth/reset-password"
  const ProfilePath := "api/profile/me"

  /** A request as Retrofit builds it from an AuthService call: no headers of its own. */
  function Call(verb: Method, path: string, payload: Payload): (r: Request)
    ensures r.headers == []
  {
    Request(verb, path, [], payload)
  }

  /** The state a synchronous view-model action leaves, and the request it launches, if any. */
  datatype Step<S> = Step(state: S, request: Option<Request>)

  /** One read of a stored auth token: a value (possibly absent) or an exception that propagates. */
  datatype TokenRead = Value(token: Option<string>) | Raised(message: Option<string>)
}
