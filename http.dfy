/** What the handlers and middleware exchange with Express: responses and the request/response pair. */
module Http {
  import opened Wrappers
  import opened Tokens
  import opened UserModel

  /** A response body: `res.json(...)` of the shapes the core sends, or `res.send(text)`. */
  datatype Body =
    | TokenJson(token: string)       // { token }
    | ErrorsJson(msgs: seq<string>)  // { errors: [{ msg }, ...] }
    | MsgJson(msg: string)           // { msg }
    | Text(text: string)             // a plain-text body
    | ProfileJson(profile: Profile)  // a document without its password
    | UserJson(user: User)           // a whole document

  datatype Response = Response(status: nat, body: Body)

  /** A handler's outcome: its response and the collection afterwards. */
  datatype Step = Step(res: Response, db: Db)

  /**
   * One request passing through a middleware: its headers (names lower-case, as
   * Express stores them), the identity attached as `req.user`, the response
   * written so far and how many times `next()` has been called.
   */
  class Exchange {
    const headers: map<string, string>
    var user: Option<Identity>
    var response: Option<Response>
    var nextCalls: nat

    constructor (headers: map<string, string>)
      ensures this.headers == headers && user == None && response == None && nextCalls == 0
    {
      this.headers := headers;
      user := None;
      response := None;
      nextCalls := 0;
    }
  }
}
