/**
 * How the components meet: requests the view models build reach the server's handlers, the server's
 * JSON reaches the view models through Gson, and a stored token reaches the interceptor.
 */
module Flows {
  import opened Wrappers
  import opened Text
  import opened Api
  import opened UserPreferences
  import opened Bearer
  import NetworkAuthService
  import Server
  import SignupViewModel
  import LoginViewModel
  import ResetPasswordViewModel
  import ForgotPasswordViewModel
  import ProfileViewModel

  // ---- Which client each view model calls through ----

  datatype Screen = SignupScreen | LoginScreen | ResetPasswordScreen | ForgotPasswordScreen | ProfileScreen

  /**
   * Signup, ResetPassword and ForgotPassword default to the lazy `RetrofitInstance.authService`;
   * Login and Profile create their service from `getRetrofitInstance(application)`.
   */
  function ClientOf(screen: Screen): (c: NetworkAuthService.Client)
    ensures c == NetworkAuthService.ContextClient <==> screen in {LoginScreen, ProfileScreen}
  {
    match screen
    case LoginScreen => NetworkAuthService.ContextClient
    case ProfileScreen => NetworkAuthService.ContextClient
    case _ => NetworkAuthService.LazyClient
  }

  /** Signup, reset and forgot-password requests go out as built, whatever token is stored. */
  lemma UnauthenticatedScreensSendNoBearer(screen: Screen, req: Request, store: Store)
    requires screen in {SignupScreen, ResetPasswordScreen, ForgotPasswordScreen}
    ensures NetworkAuthService.Send(ClientOf(screen), req, store) == Proceeded(req)
  {
    NetworkAuthService.LazyClientSendsUnchanged(req, store);
  }

  // ---- Client requests against the server's checks ----

  function AsServerSignup(p: Payload): Server.SignupRequest
    requires p.SignupPayload?
  {
    Server.SignupRequest(Some(p.username), Some(p.email), Some(p.password), Some(p.address), Some(p.gender))
  }

  function AsServerLogin(p: Payload): Server.LoginRequest
    requires p.LoginPayload?
  {
    Server.LoginRequest(Some(p.usernameOrEmail), Some(p.password))
  }

  /** A signup the client accepts always passes the server's required-field check. */
  lemma ClientSignupPassesServerCheck(s: SignupViewModel.SignupUiState)
    requires SignupViewModel.PerformSignup(s).request.Some?
    ensures Server.HasRequired(AsServerSignup(SignupViewModel.PerformSignup(s).request.value.payload))
  {
    var req := SignupViewModel.PerformSignup(s).request.value;
    assert req.payload.username == s.usernameInput && req.payload.email == s.emailInput;
    assert s.usernameInput != "" && s.emailInput != "" && s.passwordInput != "";
  }

  /** A login the client accepts always passes the server's presence check. */
  lemma ClientLoginPassesServerCheck(s: LoginViewModel.LoginUiState)
    requires LoginViewModel.PerformLogin(s).request.Some?
    ensures Server.HasCredentials(AsServerLogin(LoginViewModel.PerformLogin(s).request.value.payload))
  {
    assert s.usernameOrEmailInput != "" && s.passwordInput != "";
  }

  // ---- Server JSON through Gson ----

  /** A string field of a JSON object as Gson reads it into a nullable String (non-string values are not modelled). */
  function StringField(j: Server.Json, name: string): Option<string> {
    if j.JObj? && name in j.fields && j.fields[name].JStr? then Some(j.fields[name].str) else None
  }

  /** `Gson().fromJson(body, ApiErrorResponse::class.java)` for the server's object bodies. */
  function DecodeApiError(j: Server.Json): Decoded {
    if j.JObj? then Fields(StringField(j, "message"), StringField(j, "error")) else Threw(None)
  }

  /** The server's two body shapes reach the client's ApiErrorResponse as exactly one of its fields. */
  lemma DecodesServerBodies(text: string)
    ensures DecodeApiError(Server.MessageBody(text)) == Fields(Some(text), None)
    ensures DecodeApiError(Server.ErrorBody(text)) == Fields(None, Some(text))
  {
  }

  /** The body of a successful login as Gson fills a LoginResponse. */
  function DecodeLoginResponse(j: Server.Json): LoginResponse {
    LoginResponse(StringField(j, "message"), StringField(j, "token"), None)
  }

  /**
   * The server shown never sends a token, so a correct login reaches the view model as a body without
   * one: `saveAuthToken` then throws, and the screen reports an unexpected error instead of logging in.
   */
  lemma ServerLoginSuccessFailsOnClient(users: seq<Server.UserRow>, req: Server.LoginRequest,
                                        snapshot: LoginViewModel.LoginUiState, store: Store)
    requires Server.Login(users, req, None).status == 200
    ensures var body := DecodeLoginResponse(Server.Login(users, req, None).body);
      var r := LoginViewModel.CompleteLogin(snapshot, Ok(body), store);
      && !r.state.loginSuccess
      && r.state.errorMessage == Some(LoginViewModel.UnexpectedError)
      && r.store == store
  {
    assert StringField(Server.MessageBody(Server.LoginSucceeded), "token") == None;
  }

  /** A 401 from the server shows its "Invalid credentials." on the login screen, whatever the raw text. */
  lemma ServerRejectionShownOnClient(users: seq<Server.UserRow>, req: Server.LoginRequest, failure: Option<Server.Step>,
                                     text: string, snapshot: LoginViewModel.LoginUiState, store: Store)
    requires Server.Login(users, req, failure).status == 401
    ensures var resp := Server.Login(users, req, failure);
      var body := ErrorBody(text, DecodeApiError(resp.body));
      LoginViewModel.CompleteLogin(snapshot, ErrResp(401, Some(body)), store).state.errorMessage
        == Some(Server.InvalidCredentials)
  {
    assert StringField(Server.ErrorBody(Server.InvalidCredentials), "error") == Some(Server.InvalidCredentials);
  }

  /** A duplicate signup shows the server's "Username or email already exists" on the signup screen. */
  lemma ServerDuplicateShownOnClient(users: seq<Server.UserRow>, req: Server.SignupRequest, env: Server.Env,
                                     text: string, s: SignupViewModel.SignupUiState)
    requires Server.Signup(users, req, env).response == Server.Response(400, Server.MessageBody(Server.AlreadyExists))
    ensures var body := ErrorBody(text, DecodeApiError(Server.Signup(users, req, env).response.body));
      SignupViewModel.CompleteSignup(s, ErrResp(400, Some(body))).errorMessage == Some(Server.AlreadyExists)
  {
    assert StringField(Server.MessageBody(Server.AlreadyExists), "message") == Some(Server.AlreadyExists);
  }

  // ---- Token lifecycle on the device ----

  /**
   * After a login that returns a token, the profile screen makes its request, and the request carries
   * the token's sent value as its one bearer header, unless OkHttp refuses a character of the token.
   */
  lemma LoginTokenAuthorizesProfile(snapshot: LoginViewModel.LoginUiState, body: LoginResponse, store: Store,
                                    p: ProfileViewModel.ProfileUiState)
    requires store.fault.Healthy?
    requires body.token.Some? && body.token.value != ""
    ensures var saved := LoginViewModel.CompleteLogin(snapshot, Ok(body), store).store;
      var step := ProfileViewModel.CheckToken(p, saved);
      && step.request == Some(ProfileViewModel.ProfileCall())
      && (ValidValue(body.token.value) ==>
            NetworkAuthService.Send(ClientOf(ProfileScreen), step.request.value, saved) ==
            Proceeded(ProfileViewModel.ProfileCall().(headers := [Header(Authorization, SentValue(body.token.value))])))
      && (!ValidValue(body.token.value) ==>
            NetworkAuthService.Send(ClientOf(ProfileScreen), step.request.value, saved) ==
            BadHeaderValue(BearerPrefix + body.token.value))
  {
    var saved := LoginViewModel.CompleteLogin(snapshot, Ok(body), store).store;
    assert Slot(saved) == body.token;
    NetworkAuthService.ContextClientAttachesToken(ProfileViewModel.ProfileCall(), saved);
  }

  /** After logout, a profile request sent anyway carries no Authorization header. */
  lemma LogoutRemovesBearer(req: Request, store: Store)
    requires !store.fault.OtherFailure?
    ensures NetworkAuthService.Send(ClientOf(ProfileScreen), req, ProfileViewModel.Logout(store)) == Proceeded(req)
  {
    NetworkAuthService.ContextClientWithoutToken(req, ProfileViewModel.Logout(store));
  }

  /**
   * An empty stored token is treated differently by the two readers: the profile screen refuses to
   * fetch, while the interceptor still sends an Authorization header, which OkHttp trims to "Bearer".
   */
  lemma EmptyTokenReaders(p: ProfileViewModel.ProfileUiState, req: Request, store: Store)
    requires store.fault.Healthy? && Slot(store) == Some("")
    ensures ProfileViewModel.CheckToken(p, store).request.None?
    ensures NetworkAuthService.Send(ClientOf(ProfileScreen), req, store) ==
      Proceeded(req.(headers := req.headers + [Header(Authorization, "Bearer")]))
  {
    assert ValidValue("");
    assert AllSpace("");
    BlankTokenSendsScheme("");
    NetworkAuthService.ContextClientAttachesToken(req, store);
  }
}
