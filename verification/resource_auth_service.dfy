/**
 * data/resource/network/api/AuthService.kt: the second AuthInterceptor, over UserPreferencesDataSource.
 * That data source is not part of this model: one read of it is the `read` parameter.
 */
module ResourceAuthService {
  import opened Wrappers
  import opened Api
  import opened Bearer

  /** `AuthInterceptor.intercept`: forwards the original request with at most the one bearer header added. */
  function Intercept(req: Request, read: TokenRead): (r: Forwarded)
    ensures read == Value(None) ==> r == Proceeded(req)
    ensures read.Value? && read.token.Some? && ValidValue(read.token.value) ==>
      && r.Proceeded?
      && r.request == req.(headers := r.request.headers)
      && |r.request.headers| == |req.headers| + 1
      && r.request.headers[..|req.headers|] == req.headers
      && r.request.headers[|req.headers|] == Header(Authorization, SentValue(read.token.value))
    ensures read.Value? && read.token.Some? && !ValidValue(read.token.value) ==>
      r == BadHeaderValue(BearerPrefix + read.token.value)
    ensures read.Raised? ==> r == Aborted(read.message)
  {
    var r := Bearer.Intercept(req, read);
    if r.Proceeded? && read.Value? && read.token.Some? then
      assert r.request.headers[..|req.headers|] == req.headers;
      r
    else r
  }
}
