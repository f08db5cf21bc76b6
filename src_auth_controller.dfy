/**
 * src/controllers/authController.js: the same registration and login flow as
 * controllers/authController.js, except that registration copies `role` from
 * the body into the new document.
 */
module SrcAuthController {
  import opened Wrappers
  import opened Passwords
  import opened Tokens
  import opened UserModel
  import opened UserStore
  import opened Http
  import Accounts

  /** `register`, copying the body's role into the new document. */
  method Register(table: UserTable, body: Accounts.RegisterBody, errors: seq<string>, salt: Salt, conn: Conn)
    returns (res: Response)
    requires table.Valid()
    modifies table
    ensures table.Valid()
    ensures res == Accounts.RegisterOutcome(old(table.State()), body, body.role, errors, salt, conn).res
    ensures table.State() == Accounts.RegisterOutcome(old(table.State()), body, body.role, errors, salt, conn).db
  {
    if |errors| > 0 {
      return Accounts.Rejected(errors);
    }
    var existing := table.FindOne(body.email, conn);
    if existing.Fault? {
      return Accounts.ServerError;
    }
    if existing.value.Some? {
      return Accounts.UserExists;
    }
    if body.password.None? {
      return Accounts.ServerError;
    }
    var digest := Hash(body.password.value, salt);
    var user := Accounts.NewUser(body, body.role, digest);
    var saved := table.Save(user, conn);
    if saved.Fault? {
      return Accounts.ServerError;
    }
    res := Accounts.Issued(saved.value);
  }

  /** `login`: look the email up, compare the password, issue a token. It does not change the store. */
  method Login(table: UserTable, body: Accounts.LoginBody, conn: Conn) returns (res: Response)
    requires table.Valid()
    ensures res == Accounts.LoginOutcome(table.State(), body, conn)
  {
    var found := table.FindOne(body.email, conn);
    if found.Fault? {
      return Accounts.ServerError;
    }
    if found.value.None? {
      return Accounts.InvalidCredentials;
    }
    var doc := found.value.value;
    OwnerUnique(table.records, body.email, doc.id);
    if body.password.None? {
      return Accounts.ServerError;
    }
    var isMatch := Verify(body.password.value, doc.user.password);
    if !isMatch {
      return Accounts.InvalidCredentials;
    }
    res := Accounts.Issued(doc.id);
  }

  /** The document this handler creates carries the body's role. */
  lemma RegisterStoresRole(db: Db, b: Accounts.RegisterBody, pw: string, salt: Salt, conn: Conn)
    requires b.password == Some(pw)
    requires Accounts.RegisterOutcome(db, b, b.role, [], salt, conn).res.status == 200
    ensures var u := Accounts.RegisterOutcome(db, b, b.role, [], salt, conn).db.records[db.nextId];
            && u == User(b.firstName, b.lastName, b.address, b.phone, b.email, Hash(pw, salt), None, None, b.role)
  {
  }
}
