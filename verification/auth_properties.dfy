/** Properties that relate several requests or fix concrete inputs. */
module AuthProperties {
  import opened JsValues
  import opened UsernamePattern
  import opened Validation
  import opened CredentialStore
  import opened AuthSpec

  /** An unknown email and a known email with a wrong password produce the
      same outcome: same response, same messages, same echo, same session. */
  lemma LoginNonEnumeration(body: Body, libs: Libraries, unknown: StoreReplies, known: StoreReplies, session: Session)
    requires var email := LoginEmail(body, libs);
      unknown.lookup(email) == NoResult || unknown.lookup(email) == Rows([])
    requires var email := LoginEmail(body, libs);
      known.lookup(email).Rows? && |known.lookup(email).rows| > 0 &&
      !libs.verify(LoginPassword(body, libs), known.lookup(email).rows[0].passwordHash)
    ensures LoginSpec(body, libs, unknown, session) == LoginSpec(body, libs, known, session)
    ensures var o := LoginSpec(body, libs, unknown, session);
      o.response.RedirectToLogin? &&
      o.response.info.messages == Texts(Messages(LoginRules, body, libs.isEmail)) + [Str(InvalidCredentialsMessage)]
  {
  }

  /** Login writes `user_id`, never the key `userID` that `isNotAuthenticated`
      reads: the guard decides the same before and after any login request, so
      a session populated only by this handler is not redirected to the profile. */
  lemma LoginLeavesGuardUnchanged(body: Body, libs: Libraries, replies: StoreReplies, session: Session)
    ensures Get(LoginSpec(body, libs, replies, session).session, "userID") == Get(session, "userID")
    ensures IsNotAuthenticated(LoginSpec(body, libs, replies, session).session) == IsNotAuthenticated(session)
    ensures "userID" !in session ==> IsNotAuthenticated(LoginSpec(body, libs, replies, session).session) == Next
  {
  }

  /** A successful login that starts from an empty session leaves a session the
      guard lets through, although the client is signed in. */
  lemma SignedInButNotGuarded(body: Body, libs: Libraries, replies: StoreReplies)
    requires LoginSpec(body, libs, replies, map[]).response == RedirectHome
    ensures var s := LoginSpec(body, libs, replies, map[]).session;
      "user_id" in s && "username" in s && "email" in s && "userID" !in s
    ensures IsNotAuthenticated(LoginSpec(body, libs, replies, map[]).session) == Next
  {
  }

  /** The body a form submits: each named field set to the given raw string. */
  function RegisterBody(username: string, email: string, password: string): Body {
    map["registerUsername" := username, "registerEmail" := email, "registerPassword" := password]
  }

  function LoginBody(email: string, password: string): Body {
    map["loginEmail" := email, "loginPassword" := password]
  }

  /** register("bad user!", "a@b.com", "longenough1") fails with the
      character-set message alone, makes no store call and echoes no secret. */
  lemma ScenarioRegisterBadUsername(libs: Libraries, replies: StoreReplies, session: Session)
    requires libs.isEmail("a@b.com")
    requires libs.sanitize("bad user!") == "bad user!"
    ensures var o := RegisterSpec(RegisterBody("bad user!", "a@b.com", "longenough1"), libs, replies, session);
      o.calls == [] &&
      o.response == RedirectToLogin(RegisterForm, ErrorObject(
        [Str(UsernameCharsetMessage)],
        map["username" := Str("bad user!"), "email" := Str(libs.sanitize("a@b.com"))]))
  {
  }

  /** register("ab", "a@b.com", "longenough1") passes every rule (a two-character
      username meets the minimum) and, when the store reports success, redirects
      home after exactly one create call carrying the password's hash. */
  lemma ScenarioRegisterAb(libs: Libraries, replies: StoreReplies, session: Session)
    requires libs.isEmail("a@b.com")
    requires libs.sanitize("ab") == "ab" && libs.sanitize("a@b.com") == "a@b.com"
    requires libs.sanitize("longenough1") == "longenough1"
    requires replies.create("ab", "a@b.com", libs.hash("longenough1")).Created?
    requires Truthy(replies.create("ab", "a@b.com", libs.hash("longenough1")).success)
    ensures var o := RegisterSpec(RegisterBody("ab", "a@b.com", "longenough1"), libs, replies, session);
      o == Outcome(RedirectHome, session, [Create("ab", "a@b.com", libs.hash("longenough1"))])
  {
  }

  /** login("a@b.com", "longenough1") against a stored row whose hash verifies
      signs the client in with that row's email; login("a@b.com", "wrongpass")
      gets the generic message and leaves the session as it was. */
  lemma ScenarioLogin(libs: Libraries, replies: StoreReplies, session: Session, row: Row)
    requires libs.isEmail("a@b.com")
    requires libs.sanitize("a@b.com") == "a@b.com"
    requires libs.sanitize("longenough1") == "longenough1" && libs.sanitize("wrongpass") == "wrongpass"
    requires replies.lookup("a@b.com") == Rows([row]) && row.email == "a@b.com"
    requires libs.verify("longenough1", row.passwordHash) && !libs.verify("wrongpass", row.passwordHash)
    ensures var o := LoginSpec(LoginBody("a@b.com", "longenough1"), libs, replies, session);
      o.response == RedirectHome && o.session["email"] == Str("a@b.com")
    ensures var o := LoginSpec(LoginBody("a@b.com", "wrongpass"), libs, replies, session);
      o.session == session &&
      o.response == RedirectToLogin(LoginForm, ErrorObject(
        [Str(InvalidCredentialsMessage)],
        map["email" := Str("a@b.com"), "password" := Str("wrongpass")]))
  {
  }
}
