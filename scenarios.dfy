/**
 * The request sequences the repository's tests exercise, stated over the
 * model: registration, duplicate registration and login; a registered token
 * opening the profile; the profile update; and the role gate.
 */
module Scenarios {
  import opened Wrappers
  import opened Passwords
  import opened Tokens
  import opened UserModel
  import opened UserStore
  import opened Http
  import Accounts
  import ProfileController
  import AuthMiddleware
  import SrcAuthMiddleware

  const Healthy := Conn(false, false)
  const Empty := Db(map[], 0)

  const John := Accounts.RegisterBody("John", "Doe", None, None, "johndoe@example.com", Some("password"), None)

  /**
   * Register John, register Jane with the same email, log in with the wrong and
   * with the right password.
   */
  lemma RegisterAndLogin(salt: Salt, salt': Salt)
    ensures var first := Accounts.RegisterOutcome(Empty, John, None, [], salt, Healthy);
            var jane := Accounts.RegisterBody("Jane", "Doe", None, None, "johndoe@example.com", Some("password"), None);
            && first.res == Accounts.Issued(0)
            && Accounts.RegisterOutcome(first.db, jane, None, [], salt', Healthy) == Step(Accounts.UserExists, first.db)
            && Accounts.LoginOutcome(first.db, Accounts.LoginBody("johndoe@example.com", Some("wrongpassword")), Healthy)
               == Accounts.InvalidCredentials
            && Accounts.LoginOutcome(first.db, Accounts.LoginBody("johndoe@example.com", Some("password")), Healthy)
               == Accounts.Issued(0)
  {
    var b := John;
    Accounts.RegisterAddsOne(Empty, b, None, "password", salt, Healthy);
    var first := Accounts.RegisterOutcome(Empty, b, None, [], salt, Healthy);
    var jane := Accounts.RegisterBody("Jane", "Doe", None, None, "johndoe@example.com", Some("password"), None);
    Accounts.RegisterTwice(Empty, b, jane, None, None, salt, salt', Healthy, Healthy);
    Accounts.LoginAfterRegister(Empty, b, None, "password", "wrongpassword", salt, Healthy);
  }

  /**
   * The token a registration returns passes the auth gate as the new user,
   * and the profile it then reads is the new document without its password.
   */
  lemma RegisteredTokenOpensProfile(db: Db, b: Accounts.RegisterBody, role: Option<string>,
                                                       salt: Salt, conn: Conn)
    requires Accounts.RegisterOutcome(db, b, role, [], salt, conn).res.status == 200
    ensures var s := Accounts.RegisterOutcome(db, b, role, [], salt, conn);
            var headers := map[AuthMiddleware.TokenHeader := s.res.body.token];
            && AuthMiddleware.Gate(headers) == AuthMiddleware.Admit(Identity(db.nextId))
            && ProfileController.GetProfile(s.db.records, Some(Identity(db.nextId)), conn)
               == Response(200, ProfileJson(WithoutPassword(s.db.records[db.nextId])))
  {
    var s := Accounts.RegisterOutcome(db, b, role, [], salt, conn);
    var headers := map[AuthMiddleware.TokenHeader := s.res.body.token];
    AuthMiddleware.GateAdmitsSigned(headers, Identity(db.nextId));
  }

  /** Updating first name, last name, address and phone: the response shows all four. */
  lemma UpdateShowsNewValues(db: Db, id: Id)
    requires id in db.records
    ensures var body := Fields(Some("Jane"), Some("Doe"), Some("123 Main St"), Some("123-456-7890"), None, None);
            var s := ProfileController.UpdateOutcome(db, Some(Identity(id)), body, [], Healthy);
            && s.res.status == 200
            && s.res.body.user.firstName == "Jane" && s.res.body.user.lastName == "Doe"
            && s.res.body.user.address == Some("123 Main St") && s.res.body.user.phone == Some("123-456-7890")
            && s.res.body.user.bio == db.records[id].bio && s.res.body.user.avatar == db.records[id].avatar
  {
  }

  /** On a route allowed to patients, a patient passes and a doctor gets 403 "Unauthorized". */
  lemma PatientRoute(records: map<Id, User>, patient: Id, doctor: Id)
    requires patient in records && records[patient].role == Some("patient")
    requires doctor in records && records[doctor].role == Some("doctor")
    ensures SrcAuthMiddleware.RoleGate(["patient"], records, Some(Identity(patient)), Healthy) == SrcAuthMiddleware.Next
    ensures SrcAuthMiddleware.RoleGate(["patient"], records, Some(Identity(doctor)), Healthy)
            == SrcAuthMiddleware.Stop(SrcAuthMiddleware.Forbidden)
  {
  }
}
