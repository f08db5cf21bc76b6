/**
 * The decision logic the two registration/login handler files share
 * (controllers/authController.js and src/controllers/authController.js),
 * stated over the collection as a value. The handler methods in
 * AuthController and SrcAuthController are proved to produce exactly these
 * outcomes; the lemmas below state what the handlers promise.
 */
module Accounts {
  import opened Wrappers
  import opened Passwords
  import opened Tokens
  import opened UserModel
  import opened UserStore
  import opened Http

  /**
   * The registration body. A missing required string is the empty string (the
   * schema rejects both alike); a missing optional field is `None`.
   */
  datatype RegisterBody = RegisterBody(
    firstName: string,
    lastName: string,
    address: Option<string>,
    phone: Option<string>,
    email: string,
    password: Option<string>,
    role: Option<string>)

  datatype LoginBody = LoginBody(email: string, password: Option<string>)

  const UserExists := Response(400, ErrorsJson(["User already exists"]))
  const InvalidCredentials := Response(400, ErrorsJson(["Invalid credentials"]))
  const ServerError := Response(500, Text("Server error"))

  /** The 400 response listing the validation errors. */
  function Rejected(errors: seq<string>): Response
  {
    Response(400, ErrorsJson(errors))
  }

  /** The 200 response `{ token }` for a token signed with payload `{ user: { id } }`. */
  function Issued(id: Id): Response
  {
    Response(200, TokenJson(Sign(Payload(Identity(id)))))
  }

  /** `new User({...})` with the digest in place of the plaintext. */
  function NewUser(b: RegisterBody, role: Option<string>, digest: Digest): User
  {
    User(b.firstName, b.lastName, b.address, b.phone, b.email, digest, None, None, role)
  }

  /**
   * The outcome of `register`, for the role the handler copies into the new
   * document. `bcrypt.hash` throws on a missing password; `save` throws on a
   * schema violation or a store fault.
   */
  ghost function RegisterOutcome(db: Db, b: RegisterBody, role: Option<string>, errors: seq<string>,
                                 salt: Salt, conn: Conn): (s: Step)
    ensures s.res.status != 200 ==> s.db == db
    ensures s.res.status == 200 ==>
              b.password.Some? && s.res == Issued(db.nextId) &&
              s.db == Insert(db, NewUser(b, role, Hash(b.password.value, salt)))
    ensures s.res.status in {200, 400, 500}
  {
    if |errors| > 0 then Step(Rejected(errors), db)
    else if conn.readFails then Step(ServerError, db)
    else if EmailTaken(db.records, b.email) then Step(UserExists, db)
    else if b.password.None? then Step(ServerError, db)
    else
      var u := NewUser(b, role, Hash(b.password.value, salt));
      if SaveSucceeds(db.records, u, conn) then Step(Issued(db.nextId), Insert(db, u))
      else Step(ServerError, db)
  }

  /**
   * The outcome of `login`. A missing document and a wrong password give the same
   * response; `bcrypt.compare` throws on a missing password.
   */
  ghost function LoginOutcome(db: Db, b: LoginBody, conn: Conn): (r: Response)
    ensures r.status == 200 ==>
              b.password.Some? && EmailTaken(db.records, b.email) &&
              r == Issued(OwnerOf(db.records, b.email)) &&
              Verify(b.password.value, db.records[OwnerOf(db.records, b.email)].password)
    ensures r.status == 400 ==> r == InvalidCredentials
    ensures r.status == 500 ==> r == ServerError
    ensures r.status in {200, 400, 500}
  {
    if conn.readFails then ServerError
    else if !EmailTaken(db.records, b.email) then InvalidCredentials
    else
      var id := OwnerOf(db.records, b.email);
      if b.password.None? then ServerError
      else if Verify(b.password.value, db.records[id].password) then Issued(id)
      else InvalidCredentials
  }

  /** Validation errors are answered before the store is consulted: the outcome depends on nothing else. */
  lemma RegisterRejectsInvalid(db: Db, db': Db, b: RegisterBody, role: Option<string>, errors: seq<string>,
                               salt: Salt, salt': Salt, conn: Conn, conn': Conn)
    requires |errors| > 0
    ensures RegisterOutcome(db, b, role, errors, salt, conn) == Step(Rejected(errors), db)
    ensures RegisterOutcome(db, b, role, errors, salt, conn).res == RegisterOutcome(db', b, role, errors, salt', conn').res
  {
  }

  /** A taken email is answered with "User already exists" and the collection is unchanged. */
  lemma RegisterRejectsTakenEmail(db: Db, b: RegisterBody, role: Option<string>, salt: Salt, conn: Conn)
    requires !conn.readFails && EmailTaken(db.records, b.email)
    ensures RegisterOutcome(db, b, role, [], salt, conn) == Step(UserExists, db)
  {
  }

  /**
   * A fresh, schema-valid registration adds exactly one document: the body's
   * fields, the given role and the digest of the password; the plaintext is not
   * stored, only its digest, which accepts that password alone; and the token
   * returned verifies to the new document's id.
   */
  lemma RegisterAddsOne(db: Db, b: RegisterBody, role: Option<string>, pw: string,
                                           salt: Salt, conn: Conn)
    requires Consistent(db)
    requires !conn.readFails && !conn.writeFails && !EmailTaken(db.records, b.email)
    requires b.password == Some(pw) && b.firstName != "" && b.lastName != "" && b.email != ""
    ensures var s := RegisterOutcome(db, b, role, [], salt, conn);
            && s.res == Issued(db.nextId)
            && Consistent(s.db)
            && db.nextId !in db.records
            && s.db.records == db.records[db.nextId := NewUser(b, role, Hash(pw, salt))]
            && |s.db.records| == |db.records| + 1
            && s.db.records[db.nextId].password == Hash(pw, salt)
            && (forall q :: Verify(q, s.db.records[db.nextId].password) <==> q == pw)
            && VerifyToken(s.res.body.token) == Some(Payload(Identity(db.nextId)))
  {
    var u := NewUser(b, role, Hash(pw, salt));
    InsertKeepsConsistent(db, u);
    forall q ensures Verify(q, u.password) <==> q == pw {
      VerifyHash(pw, q, salt);
    }
    VerifyOnlySigned(Sign(Payload(Identity(db.nextId))), Payload(Identity(db.nextId)));
  }

  /** Any store or hashing fault ends in 500 "Server error", with no token and no change. */
  lemma RegisterFaults(db: Db, b: RegisterBody, role: Option<string>, salt: Salt, conn: Conn)
    requires conn.readFails || conn.writeFails || b.password.None?
    ensures var s := RegisterOutcome(db, b, role, [], salt, conn);
            (s == Step(ServerError, db) || s == Step(UserExists, db)) && !s.res.body.TokenJson?
    ensures conn.readFails ==> RegisterOutcome(db, b, role, [], salt, conn) == Step(ServerError, db)
    ensures !conn.readFails && !EmailTaken(db.records, b.email) ==>
              RegisterOutcome(db, b, role, [], salt, conn) == Step(ServerError, db)
  {
  }

  /** Every registration outcome leaves a consistent collection consistent. */
  lemma RegisterKeepsConsistent(db: Db, b: RegisterBody, role: Option<string>, errors: seq<string>,
                                salt: Salt, conn: Conn)
    requires Consistent(db)
    ensures Consistent(RegisterOutcome(db, b, role, errors, salt, conn).db)
  {
  }

  /** After a successful registration, a second one with the same email is refused, whatever its other fields. */
  lemma RegisterTwice(db: Db, b: RegisterBody, b': RegisterBody, role: Option<string>,
                                         role': Option<string>, salt: Salt, salt': Salt, conn: Conn, conn': Conn)
    requires RegisterOutcome(db, b, role, [], salt, conn).res.status == 200
    requires b'.email == b.email && !conn'.readFails
    ensures var db' := RegisterOutcome(db, b, role, [], salt, conn).db;
            RegisterOutcome(db', b', role', [], salt', conn') == Step(UserExists, db')
  {
    var db' := RegisterOutcome(db, b, role, [], salt, conn).db;
    assert db'.records[db.nextId].email == b'.email;
  }

  /** An unknown email and a wrong password give the identical response. */
  lemma LoginRejectsUnknownAndWrong(db: Db, b: LoginBody, conn: Conn)
    requires !conn.readFails
    ensures !EmailTaken(db.records, b.email) ==> LoginOutcome(db, b, conn) == InvalidCredentials
    ensures EmailTaken(db.records, b.email) && b.password.Some? &&
            !Verify(b.password.value, db.records[OwnerOf(db.records, b.email)].password) ==>
              LoginOutcome(db, b, conn) == InvalidCredentials
  {
  }

  /** The right password for a stored document yields a token for that document's id. */
  lemma LoginSucceeds(db: Db, id: Id, pw: string, conn: Conn)
    requires Consistent(db) && !conn.readFails
    requires id in db.records && Verify(pw, db.records[id].password)
    ensures LoginOutcome(db, LoginBody(db.records[id].email, Some(pw)), conn) == Issued(id)
    ensures VerifyToken(Sign(Payload(Identity(id)))) == Some(Payload(Identity(id)))
  {
    OwnerUnique(db.records, db.records[id].email, id);
    VerifyOnlySigned(Sign(Payload(Identity(id))), Payload(Identity(id)));
  }

  /** Any store fault, or a missing password for a known email, ends in 500 "Server error". */
  lemma LoginFaults(db: Db, b: LoginBody, conn: Conn)
    requires conn.readFails || (EmailTaken(db.records, b.email) && b.password.None?)
    ensures LoginOutcome(db, b, conn) == ServerError
  {
  }

  /**
   * Register then log in: the registered password yields a token for the new id,
   * any other password gets "Invalid credentials".
   */
  lemma LoginAfterRegister(db: Db, b: RegisterBody, role: Option<string>, pw: string,
                                              other: string, salt: Salt, conn: Conn)
    requires Consistent(db) && b.password == Some(pw)
    requires RegisterOutcome(db, b, role, [], salt, conn).res.status == 200
    ensures var db' := RegisterOutcome(db, b, role, [], salt, conn).db;
            && LoginOutcome(db', LoginBody(b.email, Some(pw)), conn) == Issued(db.nextId)
            && (other != pw ==> LoginOutcome(db', LoginBody(b.email, Some(other)), conn) == InvalidCredentials)
  {
    var u := NewUser(b, role, Hash(pw, salt));
    InsertKeepsConsistent(db, u);
    var db' := Insert(db, u);
    OwnerUnique(db'.records, b.email, db.nextId);
    VerifyHash(pw, other, salt);
  }
}
