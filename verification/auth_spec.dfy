/** What one request to `POST /login`, `POST /register` or a route guarded by
    `isNotAuthenticated` does, as pure functions of the request, the
    collaborators' answers and the session (routes/loginRoute.js). */
module AuthSpec {
  import opened JsValues
  import opened UsernamePattern
  import opened Validation
  import opened CredentialStore

  /** Library code the handlers call: `req.sanitize`, express-validator's
      `isEmail`, `bcrypt.hashSync` and `bcrypt.compare`. */
  datatype Libraries = Libraries(
    sanitize: string -> string,
    isEmail: string -> bool,
    hash: string -> string,
    verify: (string, string) -> bool)

  /** Which form a failure redirect reports on (`?error=login` / `?error=register`). */
  datatype FormKind = LoginForm | RegisterForm

  /** `errorObject`: the message array and the echoed form data. */
  datatype ErrorObject = ErrorObject(messages: seq<JsValue>, data: map<string, JsValue>)

  /** `res.redirect("/")`, or `res.redirect("/login?error=<kind>&info=<errorObject>")`. */
  datatype Response = RedirectHome | RedirectToLogin(kind: FormKind, info: ErrorObject)

  /** `res.redirect("/profile")`, or `next()`. */
  datatype GuardDecision = RedirectToProfile | Next

  /** The result of one request: the response, the session afterwards and the
      store calls made, in order. */
  datatype Outcome = Outcome(response: Response, session: Session, calls: seq<StoreCall>)

  const UsernameCharsetMessage := "Username can only contain letters, numbers, -, and _."
  const InvalidCredentialsMessage := "Invalid email, password or both"

  // ---------------------------------------------------------------- guard

  /** `isNotAuthenticated`: sends an already-signed-in client to its profile.
      It looks at the session key `userID`. */
  function IsNotAuthenticated(session: Session): (d: GuardDecision)
    ensures d == RedirectToProfile <==> "userID" in session && Truthy(session["userID"])
  {
    if Truthy(Get(session, "userID")) then RedirectToProfile else Next
  }

  // ---------------------------------------------------------------- login

  function LoginEmail(body: Body, libs: Libraries): string {
    libs.sanitize(Field(body, "loginEmail"))
  }

  function LoginPassword(body: Body, libs: Libraries): string {
    libs.sanitize(Field(body, "loginPassword"))
  }

  /** `loginFormData`: the sanitised email and the sanitised plaintext password. */
  function LoginData(body: Body, libs: Libraries): map<string, JsValue> {
    map["email" := Str(LoginEmail(body, libs)), "password" := Str(LoginPassword(body, libs))]
  }

  /** The lookup found a first row and `bcrypt.compare` accepts the password against its hash. */
  predicate Verified(found: LookupResult, password: string, verify: (string, string) -> bool) {
    found.Rows? && |found.rows| > 0 && verify(password, found.rows[0].passwordHash)
  }

  /** The three session writes of a successful login (`user_id`, `username`, `email`). */
  function SignIn(session: Session, row: Row): (s: Session)
    ensures s.Keys == session.Keys + {"user_id", "username", "email"}
    ensures s["user_id"] == Num(row.userId) && s["username"] == Str(row.username) && s["email"] == Str(row.email)
    ensures forall k :: k in session && k !in {"user_id", "username", "email"} ==> s[k] == session[k]
  {
    session["user_id" := Num(row.userId)]["username" := Str(row.username)]["email" := Str(row.email)]
  }

  /** `POST /login`. The store is queried whatever the validator said; an unknown
      email and a wrong password add the same message; the session is written
      only when no message at all was collected; the plaintext password is echoed
      on every failure. */
  function LoginSpec(body: Body, libs: Libraries, replies: StoreReplies, session: Session): (o: Outcome)
    ensures o.calls == [Lookup(LoginEmail(body, libs))]
    ensures o.response == RedirectHome <==>
      Messages(LoginRules, body, libs.isEmail) == [] &&
      Verified(replies.lookup(LoginEmail(body, libs)), LoginPassword(body, libs), libs.verify)
    ensures o.response == RedirectHome ==>
      var found := replies.lookup(LoginEmail(body, libs));
      found.Rows? && |found.rows| > 0 && o.session == SignIn(session, found.rows[0])
    ensures o.response != RedirectHome ==>
      var validator := Texts(Messages(LoginRules, body, libs.isEmail));
      o.session == session &&
      o.response.kind == LoginForm &&
      o.response.info.data == LoginData(body, libs) &&
      o.response.info.messages != [] &&
      var found := replies.lookup(LoginEmail(body, libs));
      var verified := Verified(found, LoginPassword(body, libs), libs.verify);
      (found.LookupFailed? ==> o.response.info.messages == validator + [Str(found.error)]) &&
      (!found.LookupFailed? && !verified ==> o.response.info.messages == validator + [Str(InvalidCredentialsMessage)]) &&
      (!found.LookupFailed? && verified ==> o.response.info.messages == validator)
  {
    var email := LoginEmail(body, libs);
    var password := LoginPassword(body, libs);
    var data := LoginData(body, libs);
    var validator := Texts(Messages(LoginRules, body, libs.isEmail));
    var found := replies.lookup(email);
    var calls := [Lookup(email)];
    if found.LookupFailed? then
      Outcome(RedirectToLogin(LoginForm, ErrorObject(validator + [Str(found.error)], data)), session, calls)
    else
      var messages := validator + (if Verified(found, password, libs.verify) then [] else [Str(InvalidCredentialsMessage)]);
      if |messages| > 0 then
        Outcome(RedirectToLogin(LoginForm, ErrorObject(messages, data)), session, calls)
      else
        Outcome(RedirectHome, SignIn(session, found.rows[0]), calls)
  }

  // ---------------------------------------------------------------- register

  function RegisterUsername(body: Body, libs: Libraries): string {
    libs.sanitize(Field(body, "registerUsername"))
  }

  function RegisterEmail(body: Body, libs: Libraries): string {
    libs.sanitize(Field(body, "registerEmail"))
  }

  function RegisterPassword(body: Body, libs: Libraries): string {
    libs.sanitize(Field(body, "registerPassword"))
  }

  /** `registerFormData` as first built: sanitised fields and `hashedPassword: null`. */
  function RegisterData(body: Body, libs: Libraries): map<string, JsValue> {
    map["username" := Str(RegisterUsername(body, libs)),
        "email" := Str(RegisterEmail(body, libs)),
        "password" := Str(RegisterPassword(body, libs)),
        "hashedPassword" := Null]
  }

  /** The echo after `delete registerFormData.password` and
      `delete registerFormData.hashedPassword`: no secret is left. */
  function ScrubbedData(body: Body, libs: Libraries): (data: map<string, JsValue>)
    ensures "password" !in data && "hashedPassword" !in data
    ensures data == map["username" := Str(RegisterUsername(body, libs)), "email" := Str(RegisterEmail(body, libs))]
  {
    RegisterData(body, libs) - {"password", "hashedPassword"}
  }

  /** The echo after `registerFormData.hashedPassword = hashedPassword`: the
      plaintext password and its hash are both present. */
  function StoredData(body: Body, libs: Libraries): (data: map<string, JsValue>)
    ensures data.Keys == {"username", "email", "password", "hashedPassword"}
    ensures data["username"] == Str(RegisterUsername(body, libs)) && data["email"] == Str(RegisterEmail(body, libs))
    ensures data["password"] == Str(RegisterPassword(body, libs))
    ensures data["hashedPassword"] == Str(libs.hash(RegisterPassword(body, libs)))
  {
    RegisterData(body, libs)["hashedPassword" := Str(libs.hash(RegisterPassword(body, libs)))]
  }

  /** The message list at the emptiness test: the validator's messages on the
      raw fields, then the character-set message if the SANITISED username fails
      the pattern. */
  function PreStoreMessages(body: Body, libs: Libraries): (ms: seq<JsValue>)
    ensures var validator := Texts(Messages(RegisterRules, body, libs.isEmail));
      |validator| <= |ms| && ms[..|validator|] == validator &&
      (UsernameRegexTest(RegisterUsername(body, libs)) ==> ms == validator) &&
      (!UsernameRegexTest(RegisterUsername(body, libs)) ==> ms == validator + [Str(UsernameCharsetMessage)])
    ensures ms == [] <==>
      Messages(RegisterRules, body, libs.isEmail) == [] && UsernameRegexTest(RegisterUsername(body, libs))
  {
    Texts(Messages(RegisterRules, body, libs.isEmail)) +
    (if UsernameRegexTest(RegisterUsername(body, libs)) then [] else [Str(UsernameCharsetMessage)])
  }

  /** `POST /register`. The store is asked to create a user exactly when no message
      was collected, with the hash of the sanitised password; the secrets are
      removed from the echo only on that early failure; the session never changes. */
  function RegisterSpec(body: Body, libs: Libraries, replies: StoreReplies, session: Session): (o: Outcome)
    ensures o.session == session
    ensures o.calls == [] <==> PreStoreMessages(body, libs) != []
    ensures o.calls != [] ==>
      o.calls == [Create(RegisterUsername(body, libs), RegisterEmail(body, libs), libs.hash(RegisterPassword(body, libs)))]
    ensures PreStoreMessages(body, libs) != [] ==>
      o.response.RedirectToLogin? && o.response.kind == RegisterForm &&
      o.response.info.messages == PreStoreMessages(body, libs) &&
      o.response.info.data == ScrubbedData(body, libs)
    ensures o.response == RedirectHome <==>
      PreStoreMessages(body, libs) == [] &&
      var created := replies.create(RegisterUsername(body, libs), RegisterEmail(body, libs), libs.hash(RegisterPassword(body, libs)));
      created.Created? && Truthy(created.success)
    ensures PreStoreMessages(body, libs) == [] && o.response != RedirectHome ==>
      var created := replies.create(RegisterUsername(body, libs), RegisterEmail(body, libs), libs.hash(RegisterPassword(body, libs)));
      o.response.kind == RegisterForm &&
      o.response.info.messages == (if created.Created? then [created.message] else [Str(created.error)]) &&
      o.response.info.data == StoredData(body, libs)
  {
    var username := RegisterUsername(body, libs);
    var email := RegisterEmail(body, libs);
    var password := RegisterPassword(body, libs);
    var messages := PreStoreMessages(body, libs);
    if |messages| > 0 then
      Outcome(RedirectToLogin(RegisterForm, ErrorObject(messages, ScrubbedData(body, libs))), session, [])
    else
      var hashed := libs.hash(password);
      var stored := StoredData(body, libs);
      var calls := [Create(username, email, hashed)];
      match replies.create(username, email, hashed)
      case Created(success, message) =>
        if Truthy(success) then Outcome(RedirectHome, session, calls)
        else Outcome(RedirectToLogin(RegisterForm, ErrorObject(messages + [message], stored)), session, calls)
      case CreateFailed(error) =>
        Outcome(RedirectToLogin(RegisterForm, ErrorObject(messages + [Str(error)], stored)), session, calls)
  }
}
