/**
 * server/server_login/server.js: the signup and login route handlers as decisions over the `users`
 * table. The table is the sequence of rows in the order a query returns them; the store's id and
 * created_at, bcrypt's random salt and any thrown store or hashing error are inputs.
 */
module Server {
  import opened Wrappers

  // ---- JSON ----

  datatype Json = JStr(str: string) | JInt(num: int) | JObj(fields: map<string, Json>)

  function MessageBody(text: string): Json {
    JObj(map["message" := JStr(text)])
  }

  function ErrorBody(text: string): Json {
    JObj(map["error" := JStr(text)])
  }

  datatype Response = Response(status: int, body: Json)

  // ---- Password hashing ----

  /** `bcrypt.hash(password, 10)` */
  const SaltRounds: nat := 10

  /**
   * A bcrypt digest, idealised: it records the rounds, the salt and, in `secret`, what was hashed, so
   * that `Compare` can be defined. Nothing outside `Compare` reads `secret`.
   */
  datatype Digest = Bcrypt(rounds: nat, salt: nat, secret: string)

  function Hash(password: string, salt: nat): (d: Digest)
    ensures d.rounds == SaltRounds && d.salt == salt
    ensures forall p :: Compare(p, d) <==> p == password
  {
    Bcrypt(SaltRounds, salt, password)
  }

  /** `bcrypt.compare(password, hash)` */
  predicate Compare(password: string, d: Digest) {
    d.secret == password
  }

  // ---- The users table ----

  datatype UserRow = UserRow(
    id: int,
    username: string,
    email: string,
    passwordHash: Digest,
    address: Option<string>,
    gender: Option<string>,
    createdAt: string)

  /** `SELECT * FROM users WHERE <p>`: the rows satisfying `p`, in table order. */
  function Select(users: seq<UserRow>, p: UserRow -> bool): (r: seq<UserRow>)
    ensures |r| <= |users|
    ensures forall i :: 0 <= i < |r| ==> p(r[i])
    ensures |r| == 0 <==> forall i :: 0 <= i < |users| ==> !p(users[i])
  {
    if |users| == 0 then []
    else
      var rest := Select(users[1..], p);
      assert forall i :: 1 <= i < |users| ==> users[i] == users[1..][i - 1];
      if p(users[0]) then [users[0]] + rest else rest
  }

  /** A query returns every row of the table that satisfies its condition, and no other. */
  lemma {:induction false} SelectMembers(users: seq<UserRow>, p: UserRow -> bool)
    ensures forall x :: x in Select(users, p) <==> x in users && p(x)
    decreases |users|
  {
    if |users| > 0 {
      SelectMembers(users[1..], p);
      assert forall x :: x in users <==> x == users[0] || x in users[1..];
    }
  }

  /**
   * A query over a table split in two returns the first part's matches followed by the second part's.
   * With `SelectSingle` this fixes the result completely: every matching row, once per occurrence, in
   * table order.
   */
  lemma {:induction false} SelectAppend(a: seq<UserRow>, b: seq<UserRow>, p: UserRow -> bool)
    ensures Select(a + b, p) == Select(a, p) + Select(b, p)
    decreases |a|
  {
    if |a| == 0 {
      assert a + b == b;
    } else {
      assert (a + b)[0] == a[0];
      assert (a + b)[1..] == a[1..] + b;
      SelectAppend(a[1..], b, p);
    }
  }

  /** A one-row table yields its row exactly when the row matches. */
  lemma SelectSingle(row: UserRow, p: UserRow -> bool)
    ensures Select([row], p) == if p(row) then [row] else []
  {
    assert [row][1..] == [];
  }

  /** Row `i` is the first in table order that satisfies `p`. */
  ghost predicate FirstWhere(users: seq<UserRow>, p: UserRow -> bool, i: int) {
    && 0 <= i < |users|
    && p(users[i])
    && forall j :: 0 <= j < i ==> !p(users[j])
  }

  /** The first row a query returns is the first matching row of the table. */
  lemma {:induction false} SelectHead(users: seq<UserRow>, p: UserRow -> bool)
    requires |Select(users, p)| > 0
    ensures exists i :: FirstWhere(users, p, i) && Select(users, p)[0] == users[i]
    decreases |users|
  {
    if p(users[0]) {
      assert FirstWhere(users, p, 0);
    } else {
      var tail := users[1..];
      SelectHead(tail, p);
      var k :| FirstWhere(tail, p, k) && Select(tail, p)[0] == tail[k];
      assert forall j :: 1 <= j <= k ==> users[j] == tail[j - 1];
      assert FirstWhere(users, p, k + 1);
    }
  }

  /** Another row blocks a signup when it has the same username or the same email. */
  predicate Clashes(row: UserRow, username: string, email: string) {
    row.username == username || row.email == email
  }

  /** The row a login input names: its username or its email equals the input. */
  predicate Identifies(row: UserRow, usernameOrEmail: string) {
    row.username == usernameOrEmail || row.email == usernameOrEmail
  }

  /** No two rows share a username, and no two share an email. */
  ghost predicate UniqueIdentities(users: seq<UserRow>) {
    forall i, j :: 0 <= i < j < |users| ==> users[i].username != users[j].username && users[i].email != users[j].email
  }

  // ---- Requests ----

  /** A field of the JSON request body: a string, or absent/null. Non-string JSON values are not modelled. */
  predicate Falsy(field: Option<string>) {
    field.None? || field.value == ""
  }

  datatype SignupRequest = SignupRequest(
    username: Option<string>,
    email: Option<string>,
    password: Option<string>,
    address: Option<string>,
    gender: Option<string>)

  datatype LoginRequest = LoginRequest(usernameOrEmail: Option<string>, password: Option<string>)

  /** A handler step whose awaited call throws into the `catch` block. */
  datatype Step = LookupStep | HashStep | InsertStep | CompareStep

  /** What the store and bcrypt supply to one request: the new row's id and created_at, the salt, and the failing step. */
  datatype Env = Env(newId: int, now: string, salt: nat, failure: Option<Step>)

  // ---- Signup ----

  const RequiredFields := "Username, email and password are required"
  const AlreadyExists := "Username or email already exists"
  const UserCreated := "User created successfully"
  const InternalError := "Internal server error"

  /** The signup response's `user`: id, username and created_at only. */
  function PublicUser(row: UserRow): (j: Json)
    ensures j.JObj? && j.fields.Keys == {"id", "username", "created_at"}
    ensures j.fields["id"] == JInt(row.id) && j.fields["username"] == JStr(row.username)
    ensures j.fields["created_at"] == JStr(row.createdAt)
  {
    JObj(map["id" := JInt(row.id), "username" := JStr(row.username), "created_at" := JStr(row.createdAt)])
  }

  datatype SignupResult = SignupResult(response: Response, users: seq<UserRow>)

  /** True when signup's three required fields are all truthy. */
  predicate HasRequired(req: SignupRequest) {
    !Falsy(req.username) && !Falsy(req.email) && !Falsy(req.password)
  }

  /** Some row already uses the username or the email. */
  ghost predicate Taken(users: seq<UserRow>, username: string, email: string) {
    exists i :: 0 <= i < |users| && Clashes(users[i], username, email)
  }

  /** One of the calls signup awaits (the lookup, bcrypt.hash, the insert) throws. */
  predicate SignupThrows(env: Env) {
    env.failure in {Some(LookupStep), Some(HashStep), Some(InsertStep)}
  }

  /** `POST /api/auth/signup` */
  function Signup(users: seq<UserRow>, req: SignupRequest, env: Env): (r: SignupResult)
    // the required-field check comes first, before any query
    ensures !HasRequired(req) ==> r == SignupResult(Response(400, MessageBody(RequiredFields)), users)
    // a clash with any existing row, by username or by email
    ensures HasRequired(req) && env.failure != Some(LookupStep) && Taken(users, req.username.value, req.email.value) ==>
      r == SignupResult(Response(400, MessageBody(AlreadyExists)), users)
    // success exactly when the input is complete, unclaimed and no call throws
    ensures r.response.status == 201 <==>
      HasRequired(req) && !Taken(users, req.username.value, req.email.value) && !SignupThrows(env)
    ensures r.response.status in {201, 400, 500}
    ensures r.response.status == 500 ==> r.response.body == MessageBody(InternalError)
    // a thrown lookup, or a thrown hash or insert after the lookup found no clash, lands in the catch block
    ensures HasRequired(req) && env.failure == Some(LookupStep) ==>
      r == SignupResult(Response(500, MessageBody(InternalError)), users)
    ensures HasRequired(req) && !Taken(users, req.username.value, req.email.value) && SignupThrows(env) ==>
      r == SignupResult(Response(500, MessageBody(InternalError)), users)
    // only a success changes the table, and then by appending exactly the new row
    ensures r.response.status != 201 ==> r.users == users
    ensures r.response.status == 201 ==>
      && |r.users| == |users| + 1
      && r.users[..|users|] == users
      && var row := r.users[|users|];
      && row == UserRow(env.newId, req.username.value, req.email.value, Hash(req.password.value, env.salt),
                        req.address, req.gender, env.now)
      && Compare(req.password.value, row.passwordHash)
      && r.response.body == JObj(map["message" := JStr(UserCreated), "user" := PublicUser(row)])
    ensures UniqueIdentities(users) ==> UniqueIdentities(r.users)
  {
    if Falsy(req.username) || Falsy(req.email) || Falsy(req.password) then
      SignupResult(Response(400, MessageBody(RequiredFields)), users)
    else
      var username, email, password := req.username.value, req.email.value, req.password.value;
      if env.failure == Some(LookupStep) then SignupResult(Response(500, MessageBody(InternalError)), users)
      else if |Select(users, row => Clashes(row, username, email))| > 0 then
        SignupResult(Response(400, MessageBody(AlreadyExists)), users)
      else
        assert forall i :: 0 <= i < |users| ==> !Clashes(users[i], username, email);
        if env.failure == Some(HashStep) || env.failure == Some(InsertStep) then
        SignupResult(Response(500, MessageBody(InternalError)), users)
      else
        var row := UserRow(env.newId, username, email, Hash(password, env.salt), req.address, req.gender, env.now);
        var users' := users + [row];
        assert users'[..|users|] == users;
        SignupResult(Response(201, JObj(map["message" := JStr(UserCreated), "user" := PublicUser(row)])), users')
  }

  /** The signup body never exposes email, address, gender or password_hash. */
  lemma SignupHidesPrivateFields(users: seq<UserRow>, req: SignupRequest, env: Env)
    requires Signup(users, req, env).response.status == 201
    ensures var body := Signup(users, req, env).response.body;
      && body.JObj? && body.fields.Keys == {"message", "user"}
      && body.fields["user"].JObj?
      && "email" !in body.fields["user"].fields
      && "password_hash" !in body.fields["user"].fields
      && "address" !in body.fields["user"].fields
      && "gender" !in body.fields["user"].fields
  {
  }

  /** Signing up a second time with the same request is refused as a duplicate. */
  lemma SignupTwiceConflicts(users: seq<UserRow>, req: SignupRequest, env: Env, env2: Env)
    requires Signup(users, req, env).response.status == 201
    requires env2.failure != Some(LookupStep)
    ensures Signup(Signup(users, req, env).users, req, env2) ==
      SignupResult(Response(400, MessageBody(AlreadyExists)), Signup(users, req, env).users)
  {
    var users' := Signup(users, req, env).users;
    assert Clashes(users'[|users|], req.username.value, req.email.value);
  }

  // ---- Login ----

  const LoginRequired := "Username/Email and password are required."
  const InvalidCredentials := "Invalid credentials."
  const LoginSucceeded := "Login successful!"
  const LoginError := "An unexpected error occurred during login."

  /** No row has the login input as its username or its email. */
  ghost predicate Unknown(users: seq<UserRow>, usernameOrEmail: string) {
    forall i :: 0 <= i < |users| ==> !Identifies(users[i], usernameOrEmail)
  }

  predicate HasCredentials(req: LoginRequest) {
    !Falsy(req.usernameOrEmail) && !Falsy(req.password)
  }

  /** `POST /api/auth/login`. It returns only a response: login never changes the table. */
  function Login(users: seq<UserRow>, req: LoginRequest, failure: Option<Step>): (r: Response)
    // the presence check comes before any lookup
    ensures !HasCredentials(req) ==> r == Response(400, ErrorBody(LoginRequired))
    ensures r.status in {200, 400, 401, 500}
    // both kinds of rejection look the same to the client
    ensures r.status == 401 ==> r.body == ErrorBody(InvalidCredentials)
    // an unknown user is refused before bcrypt.compare is reached, so only a failed lookup changes that
    ensures HasCredentials(req) && failure != Some(LookupStep) && Unknown(users, req.usernameOrEmail.value) ==>
      r == Response(401, ErrorBody(InvalidCredentials))
    ensures r.status == 500 ==> r.body == ErrorBody(LoginError)
    // a thrown lookup, or a thrown bcrypt.compare once a row was found, lands in the catch block
    ensures HasCredentials(req) && failure == Some(LookupStep) ==> r == Response(500, ErrorBody(LoginError))
    ensures HasCredentials(req) && !Unknown(users, req.usernameOrEmail.value) && failure == Some(CompareStep) ==>
      r == Response(500, ErrorBody(LoginError))
    // no token in the success body
    ensures r.status == 200 ==> r.body == MessageBody(LoginSucceeded) && "token" !in r.body.fields
  {
    if Falsy(req.usernameOrEmail) || Falsy(req.password) then Response(400, ErrorBody(LoginRequired))
    else
      var key, password := req.usernameOrEmail.value, req.password.value;
      if failure == Some(LookupStep) then Response(500, ErrorBody(LoginError))
      else
        var found := Select(users, row => Identifies(row, key));
        assert |found| == 0 ==> Unknown(users, key);
        if |found| == 0 then Response(401, ErrorBody(InvalidCredentials))
        else if failure == Some(CompareStep) then Response(500, ErrorBody(LoginError))
        else if !Compare(password, found[0].passwordHash) then Response(401, ErrorBody(InvalidCredentials))
        else Response(200, MessageBody(LoginSucceeded))
  }

  /**
   * The password is checked against the first row, in table order, whose username or email is the
   * input. Hash and insert failures belong to signup and do not affect login.
   */
  lemma LoginChecksFirstMatch(users: seq<UserRow>, req: LoginRequest, failure: Option<Step>)
    requires HasCredentials(req)
    requires failure != Some(LookupStep) && failure != Some(CompareStep)
    ensures var key := req.usernameOrEmail.value;
      Login(users, req, failure).status == 200 <==>
        exists i :: FirstWhere(users, row => Identifies(row, key), i) && Compare(req.password.value, users[i].passwordHash)
  {
    var key := req.usernameOrEmail.value;
    var p := row => Identifies(row, key);
    var found := Select(users, p);
    if |found| > 0 {
      SelectHead(users, p);
      var i :| FirstWhere(users, p, i) && found[0] == users[i];
      forall k | FirstWhere(users, p, k) ensures k == i {
      }
    }
  }

  /** A wrong password for an existing user gets the very response a nonexistent user gets. */
  lemma WrongPasswordLooksLikeUnknownUser(users: seq<UserRow>, req: LoginRequest, i: int)
    requires HasCredentials(req)
    requires FirstWhere(users, row => Identifies(row, req.usernameOrEmail.value), i)
    requires !Compare(req.password.value, users[i].passwordHash)
    ensures Login(users, req, None) == Login([], req, None) == Response(401, ErrorBody(InvalidCredentials))
  {
    LoginChecksFirstMatch(users, req, None);
  }

  /**
   * A user who just signed up can log in with their username and password, provided no earlier row
   * has that string as its email (signup checks usernames against usernames and emails against emails
   * only, while login matches the input against both columns).
   */
  lemma SignupThenLoginByUsername(users: seq<UserRow>, req: SignupRequest, env: Env)
    requires Signup(users, req, env).response.status == 201
    requires forall i :: 0 <= i < |users| ==> users[i].email != req.username.value
    ensures Login(Signup(users, req, env).users, LoginRequest(req.username, req.password), None) ==
      Response(200, MessageBody(LoginSucceeded))
  {
    var users' := Signup(users, req, env).users;
    var lreq := LoginRequest(req.username, req.password);
    var n := |users|;
    assert forall j :: 0 <= j < n ==> users'[j] == users[j];
    assert FirstWhere(users', row => Identifies(row, req.username.value), n);
    LoginChecksFirstMatch(users', lreq, None);
  }

  /** The same by email, provided no earlier row has that string as its username. */
  lemma SignupThenLoginByEmail(users: seq<UserRow>, req: SignupRequest, env: Env)
    requires Signup(users, req, env).response.status == 201
    requires forall i :: 0 <= i < |users| ==> users[i].username != req.email.value
    ensures Login(Signup(users, req, env).users, LoginRequest(req.email, req.password), None) ==
      Response(200, MessageBody(LoginSucceeded))
  {
    var users' := Signup(users, req, env).users;
    var lreq := LoginRequest(req.email, req.password);
    var n := |users|;
    assert forall j :: 0 <= j < n ==> users'[j] == users[j];
    assert FirstWhere(users', row => Identifies(row, req.email.value), n);
    LoginChecksFirstMatch(users', lreq, None);
  }

  /**
   * Without that proviso the login can fail: one user's email may be another's username, and the
   * login input then resolves to the earlier row.
   */
  lemma UsernameShadowedByEarlierEmail()
    ensures var alice := UserRow(1, "alice", "bob", Hash("pw-a", 0), None, None, "t1");
      var signup := SignupRequest(Some("bob"), Some("b@x.com"), Some("pw-b"), None, None);
      var r := Signup([alice], signup, Env(2, "t2", 0, None));
      && r.response.status == 201
      && Login(r.users, LoginRequest(Some("bob"), Some("pw-b")), None) == Response(401, ErrorBody(InvalidCredentials))
  {
    var alice := UserRow(1, "alice", "bob", Hash("pw-a", 0), None, None, "t1");
    var signup := SignupRequest(Some("bob"), Some("b@x.com"), Some("pw-b"), None, None);
    var r := Signup([alice], signup, Env(2, "t2", 0, None));
    assert !Clashes(alice, "bob", "b@x.com");
    assert FirstWhere(r.users, row => Identifies(row, "bob"), 0);
    LoginChecksFirstMatch(r.users, LoginRequest(Some("bob"), Some("pw-b")), None);
  }
}
