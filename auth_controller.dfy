/**
 * controllers/authController.js: the registration and login handlers the
 * application wires (app.js mounts routes/authRoutes.js). Registration takes
 * no role from the body.
 */
module AuthController {
  import opened Wrappers
  import opened Passwords
  import opened Tokens
  import opened UserModel
  import opened UserStore
  import opened Http
  import Accounts

  /** `register`: validation exit, duplicate check, hash, save, token. */
  method Register(table: UserTable, body: Accounts.RegisterBody, errors: seq<string>, salt: Salt, conn: Conn)
    returns (res: Response)
    requires table.Valid()
    modifies table
    ensures table.Valid()
    ensures res == Accounts.RegisterOutcome(old(table.State()), body, None, errors, salt, conn).res
    ensures table.State() == Accounts.RegisterOutcome(old(table.State()), body, None, errors, salt, conn).db
  {
    if |errors| > 0 {
      return Accounts.Rejected(errors);
    }
    var existing := table.FindOne(body.email, conn);
    if existing.Fault? {
      return Accounts.ServerError;
    }
    if existing.value.Some? {
      return Accounts.UserExists;
    }
    if body.password.None? {
      return Accounts.ServerError;
    }
    var digest := Hash(body.password.value, salt);
    var user := Accounts.NewUser(body, None, digest);
    var saved := table.Save(user, conn);
    if saved.Fault? {
      return Accounts.ServerError;
    }
    res := Accounts.Issued(saved.value);
  }

  /** `login`: look the email up, compare the password, issue a token. It does not change the store. */
  method Login(table: UserTable, body: Accounts.LoginBody, conn: Conn) returns (res: Response)
    requires table.Valid()
    ensures res == Accounts.LoginOutcome(table.State(), body, conn)
  {
    var found := table.FindOne(body.email, conn);
    if found.Fault? {
      return Accounts.ServerError;
    }
    if found.value.None? {
      return Accounts.InvalidCredentials;
    }
    var doc := found.value.value;
    OwnerUnique(table.records, body.email, doc.id);
    if body.password.None? {
      return Accounts.ServerError;
    }
    var isMatch := Verify(body.password.value, doc.user.password);
    if !isMatch {
      return Accounts.InvalidCredentials;
    }
    res := Accounts.Issued(doc.id);
  }

  /**
   * The document this handler creates has exactly the six body fields and the
   * digest of the password; whatever role the body carries, none is stored.
   */
  lemma RegisterStoresNoRole(db: Db, b: Accounts.RegisterBody, pw: string, salt: Salt, conn: Conn)
    requires b.password == Some(pw)
    requires Accounts.RegisterOutcome(db, b, None, [], salt, conn).res.status == 200
    ensures var u := Accounts.RegisterOutcome(db, b, None, [], salt, conn).db.records[db.nextId];
            && u == User(b.firstName, b.lastName, b.address, b.phone, b.email, Hash(pw, salt), None, None, None)
            && u.role == None
  {
  }
}
