/** The two POST handlers of routes/loginRoute.js as they run: a message array
    that grows by pushes, a form-data object whose keys are deleted or
    assigned, store calls, and writes to `req.session`. */
module LoginRoute {
  import opened JsValues
  import opened UsernamePattern
  import opened Validation
  import opened CredentialStore
  import opened AuthSpec

  /** One client's view of the router: its session, the store the handlers
      query and the library functions they call. */
  class Router {
    var session: Session
    const store: Store
    const libs: Libraries

    constructor (store: Store, libs: Libraries, session: Session)
      ensures this.store == store && this.libs == libs && this.session == session
    {
      this.store := store;
      this.libs := libs;
      this.session := session;
    }

    /** `router.post("/login", ...)`. */
    method PostLogin(body: Body) returns (r: Response)
      modifies this, store
      ensures var o := LoginSpec(body, libs, store.replies, old(session));
        r == o.response && session == o.session && store.calls == old(store.calls) + o.calls
    {
      var email := libs.sanitize(Field(body, "loginEmail"));
      var password := libs.sanitize(Field(body, "loginPassword"));
      var loginData := map["email" := Str(email), "password" := Str(password)];
      var messages := Texts(Messages(LoginRules, body, libs.isEmail));

      var user := store.GetUserByEmail(email);
      if user.LookupFailed? {
        // the rejected promise lands in `catch`
        messages := messages + [Str(user.error)];
        return RedirectToLogin(LoginForm, ErrorObject(messages, loginData));
      }
      if user.NoResult? || |user.rows| == 0 {
        messages := messages + [Str(InvalidCredentialsMessage)];
      } else {
        var passwordCorrect := libs.verify(password, user.rows[0].passwordHash);
        if !passwordCorrect {
          messages := messages + [Str(InvalidCredentialsMessage)];
        }
      }

      if |messages| > 0 {
        return RedirectToLogin(LoginForm, ErrorObject(messages, loginData));
      }

      session := session["user_id" := Num(user.rows[0].userId)];
      session := session["username" := Str(user.rows[0].username)];
      session := session["email" := Str(user.rows[0].email)];
      r := RedirectHome;
    }

    /** `router.post("/register", ...)`. */
    method PostRegister(body: Body) returns (r: Response)
      modifies this, store
      ensures var o := RegisterSpec(body, libs, store.replies, old(session));
        r == o.response && session == o.session && store.calls == old(store.calls) + o.calls
    {
      var username := libs.sanitize(Field(body, "registerUsername"));
      var email := libs.sanitize(Field(body, "registerEmail"));
      var password := libs.sanitize(Field(body, "registerPassword"));
      var registerData := map["username" := Str(username), "email" := Str(email),
                              "password" := Str(password), "hashedPassword" := Null];
      var messages := Texts(Messages(RegisterRules, body, libs.isEmail));

      if !UsernameRegexTest(username) {
        messages := messages + [Str(UsernameCharsetMessage)];
      }

      if |messages| > 0 {
        registerData := registerData - {"password"};
        registerData := registerData - {"hashedPassword"};
        return RedirectToLogin(RegisterForm, ErrorObject(messages, registerData));
      }

      var hashedPassword := libs.hash(password);
      registerData := registerData["hashedPassword" := Str(hashedPassword)];

      var registerResults := store.CreateUser(username, email, hashedPassword);
      if registerResults.CreateFailed? {
        // the rejected promise lands in `catch`
        messages := messages + [Str(registerResults.error)];
        return RedirectToLogin(RegisterForm, ErrorObject(messages, registerData));
      }
      if !Truthy(registerResults.success) {
        messages := messages + [registerResults.message];
        return RedirectToLogin(RegisterForm, ErrorObject(messages, registerData));
      }
      r := RedirectHome;
    }
  }
}
