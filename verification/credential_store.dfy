/** The two stored-procedure calls the handlers make, `createUser` and
    `getUserByEmail` (routes/loginRoute.js, lines 30-112), seen only through
    what they resolve with or reject with. */
module CredentialStore {
  import opened JsValues

  /** A row of `CALL GetUserByEmail(?)`: the fields the login handler reads. */
  datatype Row = Row(userId: int, username: string, email: string, passwordHash: string)

  /** What `getUserByEmail` resolves or rejects with: the row list `results[0]`,
      a falsy `results[0]`, or a rejected promise carrying `error.message`. */
  datatype LookupResult = Rows(rows: seq<Row>) | NoResult | LookupFailed(error: string)

  /** What `createUser` resolves or rejects with: the row `{success, message}`
      of `CALL CreateUser(?, ?, ?)`, or a rejected promise carrying `error.message`. */
  datatype CreateResult = Created(success: JsValue, message: JsValue) | CreateFailed(error: string)

  /** One call made on the store, with its arguments. */
  datatype StoreCall =
    | Lookup(email: string)
    | Create(username: string, email: string, hashedPassword: string)

  /** How the database answers each call during one request. */
  datatype StoreReplies = StoreReplies(
    lookup: string -> LookupResult,
    create: (string, string, string) -> CreateResult)

  /** The database as the handlers use it: it answers according to `replies`
      and every call is recorded in `calls`, so that a call that is never made
      can be told apart from one that is. */
  class Store {
    const replies: StoreReplies
    var calls: seq<StoreCall>

    constructor (replies: StoreReplies)
      ensures this.replies == replies && calls == []
    {
      this.replies := replies;
      calls := [];
    }

    method GetUserByEmail(email: string) returns (r: LookupResult)
      modifies this
      ensures calls == old(calls) + [Lookup(email)]
      ensures r == replies.lookup(email)
    {
      calls := calls + [Lookup(email)];
      r := replies.lookup(email);
    }

    method CreateUser(username: string, email: string, hashedPassword: string) returns (r: CreateResult)
      modifies this
      ensures calls == old(calls) + [Create(username, email, hashedPassword)]
      ensures r == replies.create(username, email, hashedPassword)
    {
      calls := calls + [Create(username, email, hashedPassword)];
      r := replies.create(username, email, hashedPassword);
    }
  }
}
