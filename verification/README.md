# Login app: credential decisions, view-model state machines and the session token

This project models three parts of a mobile login app and its Express backend, and proves properties of them in Dafny.

- **Server** (`server/server_login/server.js`). The signup and login handlers are pure decisions over the `users` table. The table is a sequence of rows in the order a query returns them. bcrypt is an idealised digest with `Compare(p, Hash(q, salt)) <==> p == q`. The store supplies the new row's id and created_at. The random salt and any thrown store or hashing error are inputs. A response is a status code plus a JSON body.
- **Client view models** (Signup, Login, ResetPassword, ForgotPassword, Profile). Each is an immutable UI-state record with pure transitions:
  - input changes;
  - a submit step that validates and either sets an error or enters loading and launches a request;
  - a completion step over the call's outcome: `Ok(body) | ErrResp(code, errorBody?) | IOErr | HttpErr | OtherErr`.
  Each `parseApiError` is a function over what Gson makes of the error body: it throws, returns null, or yields `message`/`error` fields.
- **Session token on the device.** `UserPreferencesRepository` is a string map in which only the key `auth_token` is touched, plus a read-fault flag. Both `AuthInterceptor` classes turn one read of the token into at most one Authorization header. OkHttp's `addHeader` is modelled as well: it refuses a value with any character other than a tab or printable ASCII, and stores the value trimmed, so the header holds `("Bearer " + token).trim()`. `RetrofitInstance` builds two kinds of client: `getRetrofitInstance` installs the interceptor; the lazy `authService` does not.

The cross-component lemmas in `flows.dfy` connect the parts:
- requests the client accepts pass the server's presence checks;
- the server's error texts reach the screens;
- a login token authorises the profile request, and logout removes it;
- the server as shown sends no token, so a correct login shows "An unexpected error occurred." on the login screen.

The model follows the code as written, including where a reader might expect otherwise:
- login answers `{message}` only, with no token or user, because the JWT code is commented out;
- there are no forgot-password, reset-password or profile routes on the server;
- the interceptor attaches a header for an empty stored token too, which goes out as the bare `Bearer`;
- `LoginUiState.kt` declares `successToken`, but the view model and its test use `receivedToken` and `loggedInUser`, and the model follows those;
- callers use `getAuthTokenOnce`, and the model treats it as the repository's `getAuthToken`.

## Model

| member | source | states |
|---|---|---|
| Server.Hash | server/server_login/server.js:54 | the stored digest uses 10 rounds and the given salt, and bcrypt's compare accepts exactly the password that was hashed (see Left out for bcrypt's 72-byte limit) |
| Server.Compare | server/server_login/server.js:103 | bcrypt.compare of a password against a stored digest; with Server.Hash, it accepts exactly the hashed password |
| Server.Select | server/server_login/server.js:48-50 | a query returns only rows that satisfy its condition, and is empty exactly when no row of the table does |
| Server.SelectMembers | server/server_login/server.js:48-50 | a row is in the query's result exactly when it is in the table and satisfies the condition |
| Server.SelectAppend | server/server_login/server.js:48-50 | the result over two concatenated parts of the table is the first part's result followed by the second's, so rows come back in table order, each occurrence once |
| Server.SelectSingle | server/server_login/server.js:91-92 | a one-row table yields its row exactly when the row matches the condition |
| Server.SelectHead | server/server_login/server.js:91-100 | the first row a query returns is the first matching row of the table |
| Server.PublicUser | server/server_login/server.js:62-66 | the signup response's user object has exactly the keys id, username and created_at, taken from the inserted row |
| Server.Signup | server/server_login/server.js:39-76 | missing fields give 400 "Username, email and password are required" before any query; a username or email already used by any row gives 400 "Username or email already exists"; a thrown lookup, or a thrown hash or insert once the lookup found no clash, gives 500 {message: "Internal server error"} and leaves the table alone; status 201 exactly when the input is complete, unclaimed and nothing throws; only a 201 changes the table, by appending exactly one row whose password_hash is the bcrypt digest; unique usernames and emails stay unique |
| Server.SignupHidesPrivateFields | server/server_login/server.js:61-67 | a successful signup body holds message and user only, and the user object never holds email, password_hash, address or gender |
| Server.SignupTwiceConflicts | server/server_login/server.js:48-52 | repeating a successful signup request is refused as a duplicate and leaves the table alone |
| Server.Login | server/server_login/server.js:79-151 | missing input gives 400 before any lookup; an unknown user gives 401 {error: "Invalid credentials."} whatever later step would have failed, since bcrypt.compare is never reached, unless the lookup itself throws; every 401 has that same body; a thrown lookup, or a thrown compare once a row was found, gives 500 {error: "An unexpected error occurred during login."}; success is 200 {message: "Login successful!"} with no token; the handler returns no new table |
| Server.LoginChecksFirstMatch | server/server_login/server.js:91-109 | unless the lookup or the compare throws, login succeeds exactly when the first row whose username or email equals the input has a hash that accepts the password |
| Server.WrongPasswordLooksLikeUnknownUser | server/server_login/server.js:94-109 | a wrong password for an existing user gets the same response as a login against an empty table |
| Server.SignupThenLoginByUsername | server/server_login/server.js:91-103 | after a successful signup, logging in with that username and password succeeds, provided no earlier row has that string as its email |
| Server.SignupThenLoginByEmail | server/server_login/server.js:91-103 | the same by email, provided no earlier row has that string as its username |
| Server.UsernameShadowedByEarlierEmail | server/server_login/server.js:48-100 | signup checks usernames against usernames only, but login matches both columns: a new user "bob" is shadowed by an older user whose email is "bob", and the login fails |
| SignupViewModel.OnInputChange | client/LoginAppViewModel/app/src/main/java/com/example/loginappviewmodel/ui/auth/SignupViewModel.kt:23-75 | each on*Change sets its own input, clears both messages, and leaves the other five inputs and isLoading unchanged |
| SignupViewModel.PerformSignup | client/LoginAppViewModel/app/src/main/java/com/example/loginappviewmodel/ui/auth/SignupViewModel.kt:78-107 | a request is sent exactly when nothing is blank, the email matches the pattern and the passwords agree; the request carries the five inputs; the checks run blank, then email format, then mismatch; a rejection changes only errorMessage; acceptance sets isLoading and clears both messages |
| SignupViewModel.ParseApiError | client/LoginAppViewModel/app/src/main/java/com/example/loginappviewmodel/ui/auth/SignupViewModel.kt:172-178 | the decoded message field, and null for a missing body, a null object or a parse exception |
| SignupViewModel.CompleteSignup | client/LoginAppViewModel/app/src/main/java/com/example/loginappviewmodel/ui/auth/SignupViewModel.kt:104-167 | isLoading is false after every outcome; success shows the response message and empties all six inputs; every failure keeps the inputs and clears successMessage; an error response shows the parsed message or "Signup failed: code"; exceptions show their fixed texts |
| SignupViewModel.SuccessResetsForm | client/LoginAppViewModel/app/src/main/java/com/example/loginappviewmodel/ui/auth/SignupViewModel.kt:108-122 | after a successful signup the state is the initial one except for the server's message |
| SignupViewModel.FailedSignupResubmits | client/LoginAppViewModel/app/src/main/java/com/example/loginappviewmodel/ui/auth/SignupViewModel.kt:123-134 | after any failure, submitting again sends the same request as before |
| LoginViewModel.OnInputChange | client/LoginAppViewModel/app/src/main/java/com/example/loginappviewmodel/ui/auth/LoginViewModel.kt:27-41 | each handler sets its own input and clears errorMessage and receivedToken; the other input, isLoading, loginSuccess and loggedInUser are unchanged |
| LoginViewModel.PerformLogin | client/LoginAppViewModel/app/src/main/java/com/example/loginappviewmodel/ui/auth/LoginViewModel.kt:44-62 | a request is sent exactly when neither input is blank; a blank input gives "Username or email and password are required." with receivedToken null and no other change; a valid input enters loading with errorMessage and receivedToken null |
| LoginViewModel.ParseApiError | client/LoginAppViewModel/app/src/main/java/com/example/loginappviewmodel/ui/auth/LoginViewModel.kt:125-131 | the decoded error field, and null for a missing body, a null object or a parse exception |
| LoginViewModel.CompleteLogin | client/LoginAppViewModel/app/src/main/java/com/example/loginappviewmodel/ui/auth/LoginViewModel.kt:60-116 | the completion is built from the submission snapshot, so the inputs equal the submitted ones; loginSuccess and a null errorMessage hold exactly when the body has a token; then the token is saved and shown along with the user; otherwise the store is untouched and receivedToken is null; an error response shows the parsed error or "Login failed"; an IOException shows "Network error. Please try again." |
| LoginViewModel.OnLoginNavigated | client/LoginAppViewModel/app/src/main/java/com/example/loginappviewmodel/ui/auth/LoginViewModel.kt:120-122 | loginSuccess becomes false and nothing else changes |
| LoginViewModel.CompletionShowsSubmittedInputs | client/LoginAppViewModel/app/src/main/java/com/example/loginappviewmodel/ui/auth/LoginViewModel.kt:45-87 | the state after completion would submit the very request that was sent |
| LoginViewModel.SuccessfulLoginStoresToken | client/LoginAppViewModel/app/src/main/java/com/example/loginappviewmodel/ui/auth/LoginViewModel.kt:65-69 | after a login with a token, the next healthy read of the preferences returns that token |
| LoginViewModel.BlankInputsScenario | client/LoginAppViewModel/app/src/test/java/com/example/loginappviewmodel/ui/auth/LoginViewModelTest.kt:98-106 | blank inputs give the required-fields message, a null token and no request |
| LoginViewModel.CorrectCredentialsScenario | client/LoginAppViewModel/app/src/test/java/com/example/loginappviewmodel/ui/auth/LoginViewModelTest.kt:109-135 | a response with "token123" and a user gives that token, that user, loginSuccess, no error and isLoading false |
| LoginViewModel.ApiErrorScenario | client/LoginAppViewModel/app/src/test/java/com/example/loginappviewmodel/ui/auth/LoginViewModelTest.kt:138-152 | a 401 body {"error":"Invalid credentials"} shows that text, with a null token, loginSuccess false and isLoading false |
| LoginViewModel.NavigatedScenario | client/LoginAppViewModel/app/src/test/java/com/example/loginappviewmodel/ui/auth/LoginViewModelTest.kt:155-170 | onLoginNavigated resets a true loginSuccess |
| ResetPasswordViewModel.OnInputChange | client/LoginAppViewModel/app/src/main/java/com/example/loginappviewmodel/ui/auth/ResetPasswordViewModel.kt:24-52 | each handler sets its own input and clears both messages; the other inputs and isLoading are unchanged |
| ResetPasswordViewModel.PerformResetPassword | client/LoginAppViewModel/app/src/main/java/com/example/loginappviewmodel/ui/auth/ResetPasswordViewModel.kt:54-86 | a request with token and new password is sent exactly when no field is blank and the passwords agree; blankness takes precedence over a mismatch; a rejection changes only errorMessage; acceptance sets isLoading and clears both messages |
| ResetPasswordViewModel.ParseApiError | client/LoginAppViewModel/app/src/main/java/com/example/loginappviewmodel/ui/auth/ResetPasswordViewModel.kt:142-151 | null exactly for a missing or blank body; a null object or null message gives "Unknown error occurred."; a parse exception gives "An error occurred while parsing the error response." |
| ResetPasswordViewModel.CompleteResetPassword | client/LoginAppViewModel/app/src/main/java/com/example/loginappviewmodel/ui/auth/ResetPasswordViewModel.kt:83-139 | isLoading is false after every outcome and both password inputs are kept; success shows the body message or "Password reset successfully." and clears only the token input; an error response shows the parsed message or "Reset password failed: code" |
| ResetPasswordViewModel.BlankBodyShowsCode | client/LoginAppViewModel/app/src/main/java/com/example/loginappviewmodel/ui/auth/ResetPasswordViewModel.kt:96-98 | a missing or blank error body always makes the screen show "Reset password failed: code" |
| ResetPasswordViewModel.ResubmitAfterSuccessIsRejected | client/LoginAppViewModel/app/src/main/java/com/example/loginappviewmodel/ui/auth/ResetPasswordViewModel.kt:87-95 | after a successful reset the token input is empty, so submitting again is rejected with "All fields are required." and sends nothing |
| ForgotPasswordViewModel.OnEMailChanged | client/LoginAppViewModel/app/src/main/java/com/example/loginappviewmodel/ui/auth/ForgotPasswordViewModel.kt:21-23 | the email input is set, both messages are cleared and isLoading is unchanged |
| ForgotPasswordViewModel.PerformForgotPasswordRequest | client/LoginAppViewModel/app/src/main/java/com/example/loginappviewmodel/ui/auth/ForgotPasswordViewModel.kt:25-36 | a request is sent exactly when the email matches the pattern (a blank email never does); otherwise only errorMessage changes, to "Please enter a valid email address"; acceptance sets isLoading and clears both messages |
| ForgotPasswordViewModel.ParseApiError | client/LoginAppViewModel/app/src/main/java/com/example/loginappviewmodel/ui/auth/ForgotPasswordViewModel.kt:54-63 | a missing or empty body gives "An unknown error occurred"; a parse exception gives "Failed to parse error response: " and its message or "Unknown error"; otherwise the decoded error field, which is null only when the JSON has none |
| ForgotPasswordViewModel.CompleteForgotPassword | client/LoginAppViewModel/app/src/main/java/com/example/loginappviewmodel/ui/auth/ForgotPasswordViewModel.kt:33-50 | isLoading is false after every outcome; success shows "Password reset link sent to " and the submitted email and empties the field; an error response shows the parsed error; every exception shows "Network error: " and its message |
| ForgotPasswordViewModel.SuccessNamesSubmittedAddress | client/LoginAppViewModel/app/src/main/java/com/example/loginappviewmodel/ui/auth/ForgotPasswordViewModel.kt:27-39 | the success message names the address captured at submission, even if the field was edited while loading |
| ProfileViewModel.FetchUserProfile | client/LoginAppViewModel/app/src/main/java/com/example/loginappviewmodel/ui/auth/ProfileViewModel.kt:33-34 | a fetch starts with isLoading true and errorMessage null, and the shown profile unchanged |
| ProfileViewModel.Constructed | client/LoginAppViewModel/app/src/main/java/com/example/loginappviewmodel/ui/auth/ProfileViewModel.kt:29-31 | the constructed view model is already loading its one initial fetch |
| ProfileViewModel.CheckToken | client/LoginAppViewModel/app/src/main/java/com/example/loginappviewmodel/ui/auth/ProfileViewModel.kt:35-48 | the profile request is made exactly when a read returns a non-empty token; an absent or empty token, an IOException included, gives "User not authenticated" with isLoading false; any other read exception escapes the coroutine and leaves the state as it was (the crash it then causes is not modelled) |
| ProfileViewModel.ParseApiError | client/LoginAppViewModel/app/src/main/java/com/example/loginappviewmodel/ui/auth/ProfileViewModel.kt:82-89 | null for a missing or empty body or a null object; the decoded error field otherwise; the raw body on a parse exception |
| ProfileViewModel.CompleteProfile | client/LoginAppViewModel/app/src/main/java/com/example/loginappviewmodel/ui/auth/ProfileViewModel.kt:48-79 | isLoading is false after every outcome; success shows the body's user with no error; every failure keeps the shown profile; an error response shows the parsed error or "Failed to fetch user profile" |
| ProfileViewModel.Logout | client/LoginAppViewModel/app/src/main/java/com/example/loginappviewmodel/ui/auth/ProfileViewModel.kt:91-95 | the stored token is removed and every other preference and the read fault are unchanged |
| ProfileViewModel.FetchAfterLogoutIsUnauthenticated | client/LoginAppViewModel/app/src/main/java/com/example/loginappviewmodel/ui/auth/ProfileViewModel.kt:37-47 | after logout a fetch ends in "User not authenticated" with no request |
| UserPreferences.SaveAuthToken | client/LoginAppViewModel/app/src/main/java/com/example/loginappviewmodel/data/preferences/UserPreferencesRepository.kt:27-32 | the slot holds the token and no other key is touched |
| UserPreferences.GetAuthToken | client/LoginAppViewModel/app/src/main/java/com/example/loginappviewmodel/data/preferences/UserPreferencesRepository.kt:35-51 | a healthy read returns the slot; an IOException reads as no token; any other exception propagates |
| UserPreferences.ClearAuthToken | client/LoginAppViewModel/app/src/main/java/com/example/loginappviewmodel/data/preferences/UserPreferencesRepository.kt:54-59 | the slot is removed and every other entry is kept |
| UserPreferences.SaveThenGet | client/LoginAppViewModel/app/src/main/java/com/example/loginappviewmodel/data/preferences/UserPreferencesRepository.kt:27-50 | after a save, a healthy read returns the saved token |
| UserPreferences.SaveOverwrites | client/LoginAppViewModel/app/src/main/java/com/example/loginappviewmodel/data/preferences/UserPreferencesRepository.kt:30 | save(a) then save(b) is the same store as save(b) |
| UserPreferences.ClearThenGet | client/LoginAppViewModel/app/src/main/java/com/example/loginappviewmodel/data/preferences/UserPreferencesRepository.kt:54-59 | after a clear, a read returns no token unless it throws |
| UserPreferences.ClearIsIdempotent | client/LoginAppViewModel/app/src/main/java/com/example/loginappviewmodel/data/preferences/UserPreferencesRepository.kt:57 | clearing an empty slot is a no-op, and clearing twice is clearing once |
| UserPreferences.ReadDependsOnlyOnSlot | client/LoginAppViewModel/app/src/main/java/com/example/loginappviewmodel/data/preferences/UserPreferencesRepository.kt:22-24 | only the auth_token entry decides what a read returns |
| Bearer.Attach | client/LoginAppViewModel/app/src/main/java/com/example/loginappviewmodel/data/network/AuthService.kt:56-60 | a null token forwards the request unchanged; any other token, "" included, either adds exactly one Authorization header holding ("Bearer " + token).trim() and changes nothing else, or, when the token holds a character OkHttp refuses, makes addHeader throw |
| Bearer.AddHeader | client/LoginAppViewModel/app/src/main/java/com/example/loginappviewmodel/data/network/AuthService.kt:58 | OkHttp's addHeader throws exactly when the value holds a character other than a tab or printable ASCII; otherwise it appends one header with the trimmed value after the existing ones |
| Bearer.Trim | client/LoginAppViewModel/app/src/main/java/com/example/loginappviewmodel/data/network/AuthService.kt:58 | OkHttp's trim of an accepted header value: leading and trailing spaces and tabs removed |
| Bearer.SentValue | client/LoginAppViewModel/app/src/main/java/com/example/loginappviewmodel/data/network/AuthService.kt:58 | the Authorization value OkHttp stores for a token: ("Bearer " + token).trim() (partnered by Bearer.BlankTokenSendsScheme and Bearer.TokenLosesTrailingBlanks) |
| Bearer.TrimIsSlice | client/LoginAppViewModel/app/src/main/java/com/example/loginappviewmodel/data/network/AuthService.kt:58 | the stored value is the original without its leading and trailing spaces and tabs: a slice whose dropped ends are blank and whose own ends are not |
| Bearer.BlankTokenSendsScheme | client/LoginAppViewModel/app/src/main/java/com/example/loginappviewmodel/data/network/AuthService.kt:58 | a token that is empty or blank goes out as the bare "Bearer" |
| Bearer.TokenLosesTrailingBlanks | client/LoginAppViewModel/app/src/main/java/com/example/loginappviewmodel/data/network/AuthService.kt:58 | any other token loses only its trailing blanks: the value is "Bearer " followed by the token without them |
| Bearer.PlainTokenSentAsIs | client/LoginAppViewModel/app/src/main/java/com/example/loginappviewmodel/data/network/AuthService.kt:58 | a token that does not end in a space or tab goes out exactly as "Bearer " + token |
| Bearer.ValidBearer | client/LoginAppViewModel/app/src/main/java/com/example/loginappviewmodel/data/network/AuthService.kt:58 | the bearer value passes OkHttp's check exactly when the token does |
| Bearer.Intercept | client/LoginAppViewModel/app/src/main/java/com/example/loginappviewmodel/data/network/AuthService.kt:54-61 | a read that throws stops the chain with its message; a null token forwards the request unchanged; a token adds one header holding its trimmed bearer value, or stops the chain when OkHttp refuses a character of it |
| NetworkAuthService.Intercept | client/LoginAppViewModel/app/src/main/java/com/example/loginappviewmodel/data/network/AuthService.kt:53-61 | one repository read per request: no token, or an IOException, forwards the request unchanged; a stored token adds its trimmed bearer header, or stops the chain when OkHttp refuses a character of it; another read exception aborts |
| NetworkAuthService.Interceptors | client/LoginAppViewModel/app/src/main/java/com/example/loginappviewmodel/data/network/AuthService.kt:74-113 | the auth interceptor is installed exactly in clients built by getRetrofitInstance |
| NetworkAuthService.Run | client/LoginAppViewModel/app/src/main/java/com/example/loginappviewmodel/data/network/AuthService.kt:74-82 | a chain without the auth interceptor forwards the request unchanged, and no chain changes its method, path or payload |
| NetworkAuthService.LazyClientSendsUnchanged | client/LoginAppViewModel/app/src/main/java/com/example/loginappviewmodel/data/network/AuthService.kt:96-113 | requests through the lazy authService go out exactly as built |
| NetworkAuthService.ContextClientAttachesToken | client/LoginAppViewModel/app/src/main/java/com/example/loginappviewmodel/data/network/AuthService.kt:84-94 | through a getRetrofitInstance client, a stored token adds exactly one Authorization header holding its trimmed bearer value, or makes addHeader throw for a character OkHttp refuses |
| NetworkAuthService.ContextClientWithoutToken | client/LoginAppViewModel/app/src/main/java/com/example/loginappviewmodel/data/network/AuthService.kt:56-60 | through a getRetrofitInstance client, an absent token forwards the request unchanged |
| ResourceAuthService.Intercept | client/LoginAppViewModel/app/src/main/java/com/example/loginappviewmodel/data/resource/network/api/AuthService.kt:46-54 | a null token forwards the original request; an acceptable token appends exactly one header with its trimmed bearer value after the original headers, and nothing else differs; a token OkHttp refuses stops the chain |
| Flows.ClientOf | client/LoginAppViewModel/app/src/main/java/com/example/loginappviewmodel/ui/auth/ProfileViewModel.kt:21-23 | Login and Profile call through getRetrofitInstance clients; Signup, ResetPassword and ForgotPassword use the lazy authService |
| Flows.UnauthenticatedScreensSendNoBearer | client/LoginAppViewModel/app/src/main/java/com/example/loginappviewmodel/ui/auth/SignupViewModel.kt:17 | signup, reset and forgot-password requests never carry the stored token |
| Flows.ClientSignupPassesServerCheck | server/server_login/server.js:45-47 | a signup the client accepts always passes the server's required-field check |
| Flows.ClientLoginPassesServerCheck | server/server_login/server.js:86-88 | a login the client accepts always passes the server's presence check |
| Flows.ServerLoginSuccessFailsOnClient | server/server_login/server.js:133-141 | a 200 login body without a token makes the client report "An unexpected error occurred." with loginSuccess false and nothing stored |
| Flows.ServerRejectionShownOnClient | client/LoginAppViewModel/app/src/main/java/com/example/loginappviewmodel/ui/auth/LoginViewModel.kt:79-88 | any 401 from the server shows "Invalid credentials." on the login screen |
| Flows.ServerDuplicateShownOnClient | client/LoginAppViewModel/app/src/main/java/com/example/loginappviewmodel/ui/auth/SignupViewModel.kt:123-134 | the server's duplicate rejection shows "Username or email already exists" on the signup screen |
| Flows.LoginTokenAuthorizesProfile | client/LoginAppViewModel/app/src/main/java/com/example/loginappviewmodel/ui/auth/ProfileViewModel.kt:37-49 | after a login with a non-empty token, the profile request is made and goes out with exactly that token's trimmed bearer header, or is stopped by addHeader for a token OkHttp refuses |
| Flows.LogoutRemovesBearer | client/LoginAppViewModel/app/src/main/java/com/example/loginappviewmodel/ui/auth/ProfileViewModel.kt:91-95 | after logout, a profile-client request carries no Authorization header |
| Flows.EmptyTokenReaders | client/LoginAppViewModel/app/src/main/java/com/example/loginappviewmodel/ui/auth/ProfileViewModel.kt:37-47 | an empty stored token stops the profile fetch, yet the interceptor still sends an Authorization header, trimmed to "Bearer" |
| Flows.DecodeApiError | client/LoginAppViewModel/app/src/main/java/com/example/loginappviewmodel/ui/auth/LoginViewModel.kt:127 | Gson's reading of a server body into ApiErrorResponse: an object yields its string message and error fields, anything else is a parse failure |
| Flows.DecodesServerBodies | client/LoginAppViewModel/app/src/main/java/com/example/loginappviewmodel/ui/auth/LoginViewModel.kt:127 | the server's {message} and {error} bodies each reach the client as exactly that one field |
| Flows.DecodeLoginResponse | client/LoginAppViewModel/app/src/main/java/com/example/loginappviewmodel/ui/auth/LoginViewModel.kt:65-69 | Gson filling LoginResponse from a login body: message and token from their string fields, and no user, which the server never sends |
| Text.IntToStringRoundTrip | client/LoginAppViewModel/app/src/main/java/com/example/loginappviewmodel/ui/auth/SignupViewModel.kt:126 | the status code in "Signup failed: code" can be read back from its decimal text |
| Text.SampleAddresses | client/LoginAppViewModel/app/src/main/java/com/example/loginappviewmodel/ui/auth/SignupViewModel.kt:93 | the email check accepts "a@x.com" and rejects an address without a dot in the domain or with an empty local part |
| Text.BlankIsNotEmail | client/LoginAppViewModel/app/src/main/java/com/example/loginappviewmodel/ui/auth/ForgotPasswordViewModel.kt:28 | a blank string never matches the email pattern |
| Text.IsWhitespace | client/LoginAppViewModel/app/src/main/java/com/example/loginappviewmodel/ui/auth/SignupViewModel.kt:88 | the characters Kotlin's isWhitespace accepts on the JVM: the Java whitespace characters and the Unicode space separators |
| Text.IsBlank | client/LoginAppViewModel/app/src/main/java/com/example/loginappviewmodel/ui/auth/SignupViewModel.kt:88 | Kotlin's isBlank: the string is empty or every character is whitespace |
| Text.IsNullOrEmpty | client/LoginAppViewModel/app/src/main/java/com/example/loginappviewmodel/ui/auth/ProfileViewModel.kt:38 | Kotlin's isNullOrEmpty on a nullable string: null or of length zero |
| Text.IsNullOrBlank | client/LoginAppViewModel/app/src/main/java/com/example/loginappviewmodel/ui/auth/ResetPasswordViewModel.kt:143 | Kotlin's isNullOrBlank on a nullable string: null or blank |
| Text.Show | client/LoginAppViewModel/app/src/main/java/com/example/loginappviewmodel/ui/auth/ForgotPasswordViewModel.kt:48 | a nullable value inside a string template: its text, or "null" when it is null |
| Text.IntToString | client/LoginAppViewModel/app/src/main/java/com/example/loginappviewmodel/ui/auth/SignupViewModel.kt:126 | Kotlin's Int.toString: a leading '-' for negatives, then decimal digits without leading zeros (partnered by Text.IntToStringRoundTrip) |
| Text.EmailAddress | client/LoginAppViewModel/app/src/main/java/com/example/loginappviewmodel/ui/auth/SignupViewModel.kt:93 | Android's EMAIL_ADDRESS pattern matched against the whole string: 1 to 256 local characters, '@', a label of up to 65 characters, then one or more dot-separated labels of up to 26 |
| Api.Outcome.ThrownMessage | client/LoginAppViewModel/app/src/main/java/com/example/loginappviewmodel/ui/auth/ForgotPasswordViewModel.kt:46-48 | the exception message a catch-all handler shows; for Retrofit's HttpException it is "HTTP code status" |
| Api.HttpMessageNamesCode | client/LoginAppViewModel/app/src/main/java/com/example/loginappviewmodel/ui/auth/ForgotPasswordViewModel.kt:48 | an HttpException's message starts with "HTTP ", then the status code as text that reads back to the code, then a space and the status text |

## Left out

- The JWT code is commented out in the login route, and there are no forgot-password, reset-password or profile routes in the server. So the model has no token issuance, reset tokens or protected route on the server side.
- `pool.connect()` runs before the `try`, and `client.release()` runs in `finally`. Pool resources, concurrency and the signup check-then-insert race are not modelled. A unique-constraint failure at insert is covered only as a thrown insert (500).
- Request fields that are JSON numbers, booleans or objects are not modelled. A field is a string or absent/null.
- SQL gives no row order without ORDER BY. The model takes the table order as the order rows come back.
- bcrypt is idealised: the digest records what was hashed, and compare accepts exactly that password. Salt generation is an input.
- Server.Hash: real bcrypt reads only the first 72 bytes of the UTF-8 password, so two long passwords that share those bytes compare equal. The model's `Compare(p, Hash(q, salt)) <==> p == q` holds only for passwords of at most 72 bytes; longer ones are not modelled.
- Express, pg, Gson, OkHttp/Retrofit, DataStore and coroutines are foreign libraries, and the model represents them by their results. The exception is OkHttp's `addHeader`, whose value check and trim are modelled in `bearer.dfy`. Gson's decoding is an input, except in `flows.dfy`, which decodes the server's own object bodies and reads only string fields. Android's `Patterns.EMAIL_ADDRESS` is transcribed as a predicate of its documented pattern.
- Timeouts, logging, `println` and stack traces are not modelled.
- The view models' cancellation rethrow (ResetPassword, Profile) is not modelled. Nor are the failures of DataStore writes (`saveAuthToken` or `clearAuthToken` throwing).
- `runBlocking` inside the interceptor is not modelled. The interceptor functions take one read of the store as their input, which is how "the token is read once per request" is represented.
- UserPreferencesDataSource and the ApiErrorResponse DTO are not part of this model. The second interceptor takes one read of the data source as a parameter. ApiErrorResponse is taken to have nullable `message` and `error` fields.
- Compose screens, navigation, DI modules and AuthRepository are left out: they render UI or only delegate.
- ForgotPasswordViewModel.ParseApiError: for a body that decodes to a null object, `.error` throws a platform NullPointerException whose message text is not visible. The model uses the fallback "Unknown error" for it.
- ProfileViewModel.CheckToken: a read exception other than an IOException escapes `viewModelScope.launch` and reaches the default handler, which on Android crashes the app. The model states only that the UI state is left as it was.
- Intercept: what a view model sees after an interceptor throws is not modelled. That covers both a read exception (`Aborted`) and addHeader's IllegalArgumentException (`BadHeaderValue`), because OkHttp delivers them through its own call machinery, outside these files. The text of the IllegalArgumentException is not modelled either.
- Flows.DecodeLoginResponse: it never fills `user`, because the login route shown sends no user object; decoding a user object into UserDto is not modelled.
- Flows.ServerLoginSuccessFailsOnClient: this relies on Kotlin's non-null parameter check in `saveAuthToken` rejecting the null token that Gson leaves. The check itself is compiler-generated code outside this model.
