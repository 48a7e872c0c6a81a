/**
 * The header attachment shared by both AuthInterceptor classes, together with what OkHttp's
 * `Request.Builder.addHeader` does to the value: it rejects a value holding any character other than
 * a tab or printable ASCII, and stores the accepted value trimmed.
 */
module Bearer {
  import opened Wrappers
  import opened Api

  const Authorization := "Authorization"
  const BearerPrefix := "Bearer "

  /** How many headers of the given name a list holds. */
  function CountHeader(headers: seq<Header>, name: string): nat {
    if |headers| == 0 then 0
    else CountHeader(headers[..|headers| - 1], name) + (if headers[|headers| - 1].name == name then 1 else 0)
  }

  lemma {:induction false} CountHeaderAppend(headers: seq<Header>, extra: seq<Header>, name: string)
    ensures CountHeader(headers + extra, name) == CountHeader(headers, name) + CountHeader(extra, name)
    decreases |extra|
  {
    if |extra| == 0 {
      assert headers + extra == headers;
    } else {
      var all := headers + extra;
      var init := extra[..|extra| - 1];
      assert all[..|all| - 1] == headers + init;
      assert all[|all| - 1] == extra[|extra| - 1];
      CountHeaderAppend(headers, init, name);
    }
  }

  // ---- Header values as OkHttp accepts and stores them ----

  /** A character OkHttp's header check lets through: a tab or printable ASCII. */
  predicate IsValueChar(c: char) {
    c == '\t' || (' ' <= c <= '~')
  }

  predicate ValidValue(v: string) {
    forall i :: 0 <= i < |v| ==> IsValueChar(v[i])
  }

  /** The characters `trim()` removes from a value that passed the check: of those, only space and tab are whitespace. */
  predicate IsValueSpace(c: char) {
    c == ' ' || c == '\t'
  }

  predicate AllSpace(v: string) {
    forall i :: 0 <= i < |v| ==> IsValueSpace(v[i])
  }

  function TrimStart(v: string): (r: string)
    ensures |r| <= |v| && r == v[|v| - |r|..]
    ensures AllSpace(v[..|v| - |r|])
    ensures |r| > 0 ==> !IsValueSpace(r[0])
    decreases |v|
  {
    if |v| > 0 && IsValueSpace(v[0]) then
      var r := TrimStart(v[1..]);
      assert v[..|v| - |r|] == [v[0]] + v[1..][..|v| - 1 - |r|];
      r
    else v
  }

  function TrimEnd(v: string): (r: string)
    ensures |r| <= |v| && r == v[..|r|]
    ensures AllSpace(v[|r|..])
    ensures |r| > 0 ==> !IsValueSpace(r[|r| - 1])
    decreases |v|
  {
    if |v| > 0 && IsValueSpace(v[|v| - 1]) then
      var init := v[..|v| - 1];
      var r := TrimEnd(init);
      assert v[|r|..] == init[|r|..] + [v[|v| - 1]];
      r
    else v
  }

  /** `value.trim()`: `v` without its leading and trailing spaces and tabs. */
  function Trim(v: string): string {
    TrimEnd(TrimStart(v))
  }

  /** The trimmed value is a slice of the original whose dropped ends are blank and whose own ends are not. */
  lemma TrimIsSlice(v: string)
    ensures exists i, j :: 0 <= i <= j <= |v| && Trim(v) == v[i..j] && AllSpace(v[..i]) && AllSpace(v[j..])
    ensures |Trim(v)| > 0 ==> !IsValueSpace(Trim(v)[0]) && !IsValueSpace(Trim(v)[|Trim(v)| - 1])
  {
    var s := TrimStart(v);
    var i := |v| - |s|;
    var r := TrimEnd(s);
    assert r == v[i..i + |r|];
    assert v[i + |r|..] == s[|r|..];
  }

  /** Dropping the last character of a value whose last character is a blank keeps "all blank" as it was. */
  lemma AllSpaceInit(b: string)
    requires |b| > 0 && IsValueSpace(b[|b| - 1])
    ensures AllSpace(b) <==> AllSpace(b[..|b| - 1])
  {
    var init := b[..|b| - 1];
    if AllSpace(init) {
      forall i | 0 <= i < |b| ensures IsValueSpace(b[i]) {
        if i < |init| {
          assert b[i] == init[i];
        }
      }
    }
  }

  /** Trimming the end of `a + b` touches `a` only when `b` is blank throughout. */
  lemma {:induction false} TrimEndAppend(a: string, b: string)
    ensures !AllSpace(b) ==> TrimEnd(a + b) == a + TrimEnd(b)
    ensures AllSpace(b) ==> TrimEnd(a + b) == TrimEnd(a)
    decreases |b|
  {
    if |b| == 0 {
      assert a + b == a;
    } else if !IsValueSpace(b[|b| - 1]) {
      assert (a + b)[|a + b| - 1] == b[|b| - 1];
      assert TrimEnd(a + b) == a + b;
      assert TrimEnd(b) == b;
    } else {
      var init := b[..|b| - 1];
      assert (a + b)[..|a + b| - 1] == a + init;
      assert (a + b)[|a + b| - 1] == b[|b| - 1];
      assert TrimEnd(a + b) == TrimEnd(a + init);
      assert TrimEnd(b) == TrimEnd(init);
      AllSpaceInit(b);
      TrimEndAppend(a, init);
    }
  }

  /** The Authorization value OkHttp stores for a token: `("Bearer " + token).trim()`. */
  function SentValue(token: string): string {
    Trim(BearerPrefix + token)
  }

  /** A token of spaces and tabs, the empty one included, leaves the bare scheme "Bearer". */
  lemma BlankTokenSendsScheme(token: string)
    requires AllSpace(token)
    ensures SentValue(token) == "Bearer"
  {
    SentValueIsTrimEnd(token);
    TrimEndAppend(BearerPrefix, token);
    TrimmedPrefix();
  }

  /** Trimming acts on the token's end only, since "Bearer" starts the value: any other token loses just its trailing blanks. */
  lemma TokenLosesTrailingBlanks(token: string)
    requires !AllSpace(token)
    ensures SentValue(token) == BearerPrefix + TrimEnd(token)
  {
    SentValueIsTrimEnd(token);
    TrimEndAppend(BearerPrefix, token);
  }

  /** "Bearer" starts with a letter, so only the end of a bearer value can be trimmed. */
  lemma SentValueIsTrimEnd(token: string)
    ensures SentValue(token) == TrimEnd(BearerPrefix + token)
  {
    var v := BearerPrefix + token;
    assert v[0] == 'B';
    assert TrimStart(v) == v;
  }

  lemma TrimmedPrefix()
    ensures TrimEnd(BearerPrefix) == "Bearer"
  {
    assert "Bearer" + " " == BearerPrefix;
    assert AllSpace(" ");
    TrimEndAppend("Bearer", " ");
    assert TrimEnd("Bearer") == "Bearer";
  }

  /** A token that does not end in a space or a tab goes out exactly as "Bearer " + token. */
  lemma PlainTokenSentAsIs(token: string)
    requires |token| > 0 && !IsValueSpace(token[|token| - 1])
    ensures SentValue(token) == BearerPrefix + token
  {
    assert !AllSpace(token);
    TokenLosesTrailingBlanks(token);
  }

  /** The prefix is valid, so a bearer value passes the check exactly when its token does. */
  lemma ValidBearer(token: string)
    ensures ValidValue(BearerPrefix + token) <==> ValidValue(token)
  {
    var v := BearerPrefix + token;
    assert forall i :: 0 <= i < |token| ==> v[|BearerPrefix| + i] == token[i];
    if ValidValue(token) {
      assert forall i :: 0 <= i < |v| ==> i < |BearerPrefix| || v[i] == token[i - |BearerPrefix|];
    }
  }

  /**
   * What `chain.proceed` receives, or what stops the chain before it: an exception with its message,
   * or the IllegalArgumentException `addHeader` throws for an invalid value (its text is not modelled).
   */
  datatype Forwarded = Proceeded(request: Request) | Aborted(message: Option<string>) | BadHeaderValue(value: string)

  /** `requestBuilder.addHeader(name, value)` followed by `build()`. */
  function AddHeader(req: Request, name: string, value: string): (r: Forwarded)
    ensures r.BadHeaderValue? <==> !ValidValue(value)
    ensures r.BadHeaderValue? ==> r.value == value
    ensures r.Proceeded? ==>
      && r.request.verb == req.verb && r.request.path == req.path && r.request.payload == req.payload
      && |r.request.headers| == |req.headers| + 1
      && r.request.headers[..|req.headers|] == req.headers
      && r.request.headers[|req.headers|] == Header(name, Trim(value))
  {
    if ValidValue(value) then
      var headers := req.headers + [Header(name, Trim(value))];
      assert headers[..|req.headers|] == req.headers;
      Proceeded(req.(headers := headers))
    else BadHeaderValue(value)
  }

  /**
   * `token?.let { requestBuilder.addHeader("Authorization", "Bearer $it") }` followed by `build()`:
   * a null token forwards the request as it is; any other token, the empty string included, either
   * adds exactly one Authorization header holding its sent value, or makes `addHeader` throw.
   */
  function Attach(req: Request, token: Option<string>): (r: Forwarded)
    ensures token.None? ==> r == Proceeded(req)
    ensures token.Some? && !ValidValue(token.value) ==> r == BadHeaderValue(BearerPrefix + token.value)
    ensures token.Some? && ValidValue(token.value) ==>
      r == Proceeded(req.(headers := req.headers + [Header(Authorization, SentValue(token.value))]))
    ensures r.Proceeded? ==>
      && r.request.verb == req.verb && r.request.path == req.path && r.request.payload == req.payload
      && CountHeader(r.request.headers, Authorization) ==
         CountHeader(req.headers, Authorization) + (if token.Some? then 1 else 0)
    ensures !r.Aborted?
  {
    match token
    case None => Proceeded(req)
    case Some(t) =>
      ValidBearer(t);
      var r := AddHeader(req, Authorization, BearerPrefix + t);
      if r.Proceeded? then
        var added := [Header(Authorization, SentValue(t))];
        assert r.request.headers == req.headers + added;
        CountHeaderAppend(req.headers, added, Authorization);
        assert CountHeader(added, Authorization) == 1 by {
          assert added[..0] == [];
        }
        r
      else r
  }

  /** `intercept(chain)` over one token read: the read is made once and decides the forwarded request. */
  function Intercept(req: Request, read: TokenRead): (r: Forwarded)
    ensures read.Raised? ==> r == Aborted(read.message)
    ensures read.Value? && read.token.None? ==> r == Proceeded(req)
    ensures read.Value? && read.token.Some? && !ValidValue(read.token.value) ==>
      r == BadHeaderValue(BearerPrefix + read.token.value)
    ensures read.Value? && read.token.Some? && ValidValue(read.token.value) ==>
      r == Proceeded(req.(headers := req.headers + [Header(Authorization, SentValue(read.token.value))]))
  {
    match read
    case Raised(m) => Aborted(m)
    case Value(t) => Attach(req, t)
  }
}
