/**
 * data/network/AuthService.kt: the AuthInterceptor over UserPreferencesRepository and the clients
 * RetrofitInstance builds.
 */
module NetworkAuthService {
  import opened Wrappers
  import opened Api
  import opened UserPreferences
  import opened Bearer

  /** `AuthInterceptor.intercept`: one `getAuthTokenOnce()` read of the repository, then the header. */
  function Intercept(req: Request, store: Store): (r: Forwarded)
    ensures Slot(store).None? && !store.fault.OtherFailure? ==> r == Proceeded(req)
    ensures store.fault.IOFailure? ==> r == Proceeded(req)
    ensures store.fault.Healthy? && Slot(store).Some? && ValidValue(Slot(store).value) ==>
      r == Proceeded(req.(headers := req.headers + [Header(Authorization, SentValue(Slot(store).value))]))
    ensures store.fault.Healthy? && Slot(store).Some? && !ValidValue(Slot(store).value) ==>
      r == BadHeaderValue(BearerPrefix + Slot(store).value)
    ensures store.fault.OtherFailure? ==> r == Aborted(store.fault.message)
  {
    Bearer.Intercept(req, GetAuthToken(store))
  }

  datatype Interceptor = AuthInterceptor | LoggingInterceptor

  /**
   * The two ways RetrofitInstance makes a client: `getRetrofitInstance(context)` installs the auth
   * interceptor before the logging one; the lazy `authService` uses an OkHttpClient with logging only.
   */
  datatype Client = ContextClient | LazyClient

  function Interceptors(c: Client): (r: seq<Interceptor>)
    ensures AuthInterceptor in r <==> c == ContextClient
  {
    match c
    case ContextClient => [AuthInterceptor, LoggingInterceptor]
    case LazyClient => [LoggingInterceptor]
  }

  /** Passes a request down an interceptor chain; the logging interceptor forwards it unchanged. */
  function Run(chain: seq<Interceptor>, req: Request, store: Store): (r: Forwarded)
    ensures AuthInterceptor !in chain ==> r == Proceeded(req)
    ensures r.Proceeded? ==> r.request.verb == req.verb && r.request.path == req.path && r.request.payload == req.payload
  {
    if |chain| == 0 then Proceeded(req)
    else match chain[0]
      case LoggingInterceptor => Run(chain[1..], req, store)
      case AuthInterceptor =>
        match Intercept(req, store)
        case Proceeded(next) => Run(chain[1..], next, store)
        case stopped => stopped
  }

  /** The request a client puts on the wire. */
  function Send(c: Client, req: Request, store: Store): Forwarded {
    Run(Interceptors(c), req, store)
  }

  /** Requests through the lazy `RetrofitInstance.authService` never carry an Authorization header of the interceptor's making. */
  lemma LazyClientSendsUnchanged(req: Request, store: Store)
    ensures Send(LazyClient, req, store) == Proceeded(req)
  {
  }

  /**
   * Through a `getRetrofitInstance` client, a stored token (even "") becomes exactly one bearer header
   * holding its trimmed value, unless a character OkHttp refuses makes `addHeader` throw.
   */
  lemma ContextClientAttachesToken(req: Request, store: Store)
    requires store.fault.Healthy? && Slot(store).Some?
    ensures ValidValue(Slot(store).value) ==>
      && Send(ContextClient, req, store) ==
         Proceeded(req.(headers := req.headers + [Header(Authorization, SentValue(Slot(store).value))]))
      && CountHeader(Send(ContextClient, req, store).request.headers, Authorization) ==
         CountHeader(req.headers, Authorization) + 1
    ensures !ValidValue(Slot(store).value) ==>
      Send(ContextClient, req, store) == BadHeaderValue(BearerPrefix + Slot(store).value)
  {
    var sent := Intercept(req, store);
    assert Run([AuthInterceptor, LoggingInterceptor], req, store) ==
      if sent.Proceeded? then Run([LoggingInterceptor], sent.request, store) else sent;
    if sent.Proceeded? {
      assert Run([LoggingInterceptor], sent.request, store) == sent;
    }
  }

  /** With no stored token, a `getRetrofitInstance` client forwards the request unchanged. */
  lemma ContextClientWithoutToken(req: Request, store: Store)
    requires !store.fault.OtherFailure? && Slot(store).None?
    ensures Send(ContextClient, req, store) == Proceeded(req)
  {
    assert Intercept(req, store) == Proceeded(req);
  }
}
