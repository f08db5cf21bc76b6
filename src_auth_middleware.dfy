/**
 * src/middleware/auth.js: the same token gate as middleware/auth.js, and
 * `authorize(...roles)`, which lets a request through only when the stored
 * document of the authenticated user has one of the listed roles.
 */
module SrcAuthMiddleware {
  import opened Wrappers
  import opened Tokens
  import opened UserModel
  import opened UserStore
  import opened Http
  import AuthMiddleware

  const Forbidden := Response(403, MsgJson("Unauthorized"))
  const ServerFault := Response(500, MsgJson("Server error"))

  /** The role gate's decision. */
  datatype Decision = Next | Stop(res: Response)

  /** `roles.includes(user.role)`; an absent role is in no list of role strings. */
  predicate Permitted(roles: seq<string>, role: Option<string>)
  {
    role.Some? && role.value in roles
  }

  /**
   * The decision of `authorize(...roles)`. A store fault, a missing `req.user`
   * and a vanished document (where `user.role` throws) are all 500, not 403.
   */
  function RoleGate(roles: seq<string>, records: map<Id, User>, user: Option<Identity>, conn: Conn): (d: Decision)
    ensures d == Next <==>
              !conn.readFails && user.Some? && user.value.id in records && Permitted(roles, records[user.value.id].role)
    ensures d == Stop(Forbidden) <==>
              !conn.readFails && user.Some? && user.value.id in records && !Permitted(roles, records[user.value.id].role)
    ensures d.Stop? ==> d.res == Forbidden || d.res == ServerFault
  {
    if conn.readFails || user.None? || user.value.id !in records then Stop(ServerFault)
    else if !Permitted(roles, records[user.value.id].role) then Stop(Forbidden)
    else Next
  }

  /** With an empty allow-list everyone is refused. */
  lemma EmptyAllowListDeniesAll(records: map<Id, User>, user: Option<Identity>, conn: Conn)
    ensures RoleGate([], records, user, conn) != Next
  {
  }

  /** `authMiddleware`: the same decision as middleware/auth.js, with the same effects. */
  method Authenticate(ex: Exchange)
    modifies ex
    ensures match AuthMiddleware.Gate(ex.headers)
              case Admit(user) =>
                ex.user == Some(user) && ex.nextCalls == old(ex.nextCalls) + 1 && ex.response == old(ex.response)
              case Deny(r) =>
                ex.response == Some(r) && ex.nextCalls == old(ex.nextCalls) && ex.user == old(ex.user)
  {
    var token := AuthMiddleware.HeaderToken(ex.headers);
    if token.None? || token.value == "" {
      ex.response := Some(AuthMiddleware.NoToken);
      return;
    }
    var decoded := VerifyToken(token.value);
    if decoded.None? {
      ex.response := Some(AuthMiddleware.BadToken);
      return;
    }
    ex.user := Some(decoded.value.user);
    ex.nextCalls := ex.nextCalls + 1;
  }

  /** The middleware `authorize(...roles)` returns, run on one request. */
  method Authorize(roles: seq<string>, table: UserTable, ex: Exchange, conn: Conn)
    modifies ex
    ensures ex.user == old(ex.user)
    ensures match RoleGate(roles, table.records, old(ex.user), conn)
              case Next => ex.nextCalls == old(ex.nextCalls) + 1 && ex.response == old(ex.response)
              case Stop(r) => ex.response == Some(r) && ex.nextCalls == old(ex.nextCalls)
  {
    if ex.user.None? {
      ex.response := Some(ServerFault);
      return;
    }
    var found := table.FindById(ex.user.value.id, conn);
    if found.Fault? || found.value.None? {
      ex.response := Some(ServerFault);
      return;
    }
    if !Permitted(roles, found.value.value.role) {
      ex.response := Some(Forbidden);
      return;
    }
    ex.nextCalls := ex.nextCalls + 1;
  }
}
