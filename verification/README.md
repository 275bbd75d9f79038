# Login and registration routes, modelled in Dafny

This project models the decision logic of `routes/loginRoute.js` of KinetikTXT:
the `POST /login` and `POST /register` handlers, the `isNotAuthenticated`
guard, the username character-set test and the express-validator rule lists
that feed both handlers.

Each handler is modelled twice:

- as a pure step function (`AuthSpec.LoginSpec`, `AuthSpec.RegisterSpec`).
  It maps the raw request body, the library functions, the store's answers
  and the session to an `Outcome`: the redirect, the new session and the list
  of store calls made;
- as an imperative method on a `Router` object (`LoginRoute.Router.PostLogin`,
  `LoginRoute.Router.PostRegister`). The method grows a message sequence by
  appends, deletes and assigns keys of the echoed form data, calls a `Store`
  object that records every call, and writes the session field. Each method is
  proved to produce exactly the step function's outcome.

The collaborators the handlers call are parameters:

- `req.sanitize`, express-validator's `isEmail`, `bcrypt.hashSync` and
  `bcrypt.compare` form a `Libraries` value of uninterpreted functions;
- the database is a `StoreReplies` value: what `getUserByEmail` and
  `createUser` resolve or reject with for given arguments.

A redirect is a structured value. `RedirectHome` is `res.redirect("/")`.
`RedirectToLogin(kind, ErrorObject(messages, data))` is the
`/login?error=<kind>&info=...` redirect. Its echoed form data is a map, so a
deleted key is absent. JavaScript values in the session, in the echo and in
the message array are a `JsValue` datatype with JavaScript truthiness.

The model follows the code as written, including where the code works
against its own evident intent. Its comment at line 297 calls the password
fields sensitive, and its guard is meant to recognise a signed-in client:

- on every failed login the sanitised plaintext password is echoed back;
- on a registration that fails at the store, the plaintext password and its
  hash are both echoed back. Scrubbing happens only on the early failure;
- the guard reads the session key `userID`, while login writes `user_id`. A
  session populated by this login handler is therefore never redirected by
  the guard (`AuthProperties.LoginLeavesGuardUnchanged`).

## Model

| member | source | states |
|---|---|---|
| `UsernamePattern.ClassStar` | routes/loginRoute.js:288 | the `[a-zA-Z0-9_-]*$` tail of the pattern accepts a string iff every character is an ASCII letter, an ASCII digit, `_` or `-` |
| `UsernamePattern.UsernameRegexTest` | routes/loginRoute.js:288 | `/^[a-zA-Z0-9_-]+$/.test(s)` holds iff `s` is non-empty and every character is an ASCII letter, an ASCII digit, `_` or `-` |
| `UsernamePattern.ScenarioUsernames` | routes/loginRoute.js:288 | "ab" passes the pattern and "bad user!" fails it |
| `Validation.Messages` | routes/loginRoute.js:17-27 | the validator's message list has no more messages than rules, holds only messages of failing rules, and is empty iff every rule accepts its raw body field; `FailingRuleReported` adds that every failing rule's message is present, `MessagesAppend` gives chain order, and the exact ordered lists are `RegisterMessagesExplicit` and `LoginMessagesExplicit` |
| `Validation.FailingRuleReported` | routes/loginRoute.js:17-27 | every chain whose check fails contributes its message to the list: no failing chain is dropped |
| `Validation.MessagesAppend` | routes/loginRoute.js:17-27 | messages follow chain order: the messages of two chain lists run one after the other are the first list's messages followed by the second's |
| `Validation.RegisterMessagesExplicit` | routes/loginRoute.js:17-22 | the register rules yield, in this order, the username-length message (fewer than 2 characters), "Invalid Email" and the password-length message (fewer than 8 characters), each only when its rule fails |
| `Validation.LoginMessagesExplicit` | routes/loginRoute.js:24-27 | the login rules yield "Invalid Email" iff the raw email fails `isEmail`, and nothing else |
| `CredentialStore.Store.GetUserByEmail` | routes/loginRoute.js:71-112 | a lookup answers with the store's reply for the email and records exactly one `Lookup(email)` call |
| `CredentialStore.Store.CreateUser` | routes/loginRoute.js:30-69 | a create answers with the store's reply for (username, email, hash) and records exactly one `Create` call with those arguments |
| `AuthSpec.IsNotAuthenticated` | routes/loginRoute.js:121-131 | the guard redirects to `/profile` iff `session.userID` is present and truthy, and otherwise passes the request on |
| `AuthSpec.SignIn` | routes/loginRoute.js:241-243 | a successful login adds exactly the keys `user_id`, `username` and `email`, taken from the row, and keeps every other session entry |
| `AuthSpec.LoginSpec` | routes/loginRoute.js:183-255 | the store is queried once, with the sanitised email, whatever the validator said; the response is `/` iff the validator reported nothing and the first row's hash verifies the sanitised password, and then the session gains the row's three keys; on every other path, including a rejected lookup, the session is unchanged, the kind is `login`, the echo holds the sanitised email and plaintext password, and the messages are the validator's followed by `error.message` on a rejected lookup, by "Invalid email, password or both" when no row is found or the password does not verify, and by nothing when it verifies |
| `AuthSpec.ScrubbedData` | routes/loginRoute.js:298-299 | after the two deletes the echo holds only the sanitised username and email, with no `password` and no `hashedPassword` |
| `AuthSpec.StoredData` | routes/loginRoute.js:306-307 | after hashing, the echo keeps the sanitised username and email and holds the plaintext password and `hashedPassword` set to its hash |
| `AuthSpec.PreStoreMessages` | routes/loginRoute.js:276-292 | the messages at the emptiness test are the validator's messages on the raw fields, followed by the character-set message exactly when the sanitised username fails the pattern; the list is empty iff both checks pass |
| `AuthSpec.RegisterSpec` | routes/loginRoute.js:257-336 | the session never changes; the store's create is called iff no message was collected, and then with the sanitised username and email and the hash of the sanitised password; an early failure redirects with kind `register`, the collected messages and the scrubbed echo; the response is `/` iff the create resolves with a truthy `success`; otherwise the single message is the store's `message` or the error's message, and the echo still holds the password and its hash |
| `LoginRoute.Router.PostLogin` | routes/loginRoute.js:183-255 | running the handler step by step returns the redirect of `LoginSpec`, leaves the session `LoginSpec` gives and appends its store calls to the store's log |
| `LoginRoute.Router.PostRegister` | routes/loginRoute.js:257-336 | running the handler step by step returns the redirect of `RegisterSpec`, leaves the session unchanged and appends its store calls to the store's log |
| `AuthProperties.LoginNonEnumeration` | routes/loginRoute.js:213-229 | an unknown email (no result or no rows) and a known email with a wrong password give identical outcomes: the validator's messages followed by "Invalid email, password or both" |
| `AuthProperties.LoginLeavesGuardUnchanged` | routes/loginRoute.js:241-243 | no login request changes `session.userID`, so the guard at line 123 decides the same before and after it, and lets through a session that had no `userID` |
| `AuthProperties.SignedInButNotGuarded` | routes/loginRoute.js:232-244 | a successful login from an empty session writes `user_id`, `username` and `email` but no `userID`, so the guard passes the signed-in client through |
| `AuthProperties.ScenarioRegisterBadUsername` | routes/loginRoute.js:285-303 | registering "bad user!" with a valid email and long password fails with only the character-set message, calls nothing on the store and echoes only username and email |
| `AuthProperties.ScenarioRegisterAb` | routes/loginRoute.js:257-325 | registering "ab", "a@b.com", "longenough1" passes every check and, when the store reports success, redirects home after one create call with the password's hash |
| `AuthProperties.ScenarioLogin` | routes/loginRoute.js:213-244 | logging in with the verifying password sets the session's `email`; with a wrong password it yields only the generic message, echoes the plaintext password and keeps the session |

## Left out

- `prepareObjectForURL` (lines 115-119): the JSON and URL encoding of the error object is library serialisation. The redirect is a structured value instead.
- Database access in `createUser` and `getUserByEmail` (lines 30-112): pool acquisition, the callback queries and `connection.release()` are I/O. The store is its replies plus a call log. What the stored procedures store is not part of this model, so the register-then-fetch round trip is not stated.
- A `CreateUser` call that returns no row makes the handler throw a TypeError when it reads `success`. The model represents that as a `CreateFailed` reply carrying the error's message.
- `bcrypt`: salting, the cost factor of 10 rounds and constant-time comparison are not modelled. `hash` is an uninterpreted function, applied once per request. `verify` is an uninterpreted predicate that never rejects, and `hashSync` never throws.
- express-validator: `isEmail` is an uninterpreted predicate. `isLength` counts Dafny characters (Unicode scalar values); validator.js's own counting of variation selectors is not modelled.
- `req.sanitize` is an uninterpreted function. A body field that is missing is read as the empty string by both the validator and the sanitiser; the sanitiser's handling of an undefined value is not modelled.
- `JsValue` has integers for JavaScript numbers and no objects or arrays; NaN, fractions and object- or array-valued session entries (always truthy in JavaScript) are not modelled.
- The `GET /login` page (lines 133-181), `console.log`, Express routing and the promise sequencing are presentation and plumbing.
