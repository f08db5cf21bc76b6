/**
 * middleware/auth.js: the token gate. A request whose `x-auth-token` header
 * is missing or empty is refused without consulting the token service; a
 * token that does not verify is refused with a different message; otherwise
 * the decoded identity becomes `req.user` and `next()` is called once.
 */
module AuthMiddleware {
  import opened Wrappers
  import opened Tokens
  import opened Http

  const TokenHeader := "x-auth-token"
  const NoToken := Response(401, MsgJson("No token, authorization denied"))
  const BadToken := Response(401, MsgJson("Token is not valid"))

  /** The gate's decision: pass the request on as `user`, or answer it. */
  datatype Verdict = Admit(user: Identity) | Deny(res: Response)

  /** `req.header("x-auth-token")`. */
  function HeaderToken(headers: map<string, string>): Option<string>
  {
    if TokenHeader in headers then Some(headers[TokenHeader]) else None
  }

  predicate Falsy(token: Option<string>)
  {
    token.None? || token.value == ""
  }

  function Gate(headers: map<string, string>): (v: Verdict)
    ensures v.Deny? ==> v.res.status == 401
    ensures v == Deny(NoToken) <==> Falsy(HeaderToken(headers))
    ensures v.Admit? ==> VerifyToken(HeaderToken(headers).value) == Some(Payload(v.user))
  {
    var token := HeaderToken(headers);
    if Falsy(token) then Deny(NoToken)
    else match VerifyToken(token.value)
      case None => Deny(BadToken)
      case Some(decoded) => Admit(decoded.user)
  }

  /** The gate admits exactly the requests that carry the token signed for an identity, as that identity. */
  lemma GateAdmitsSigned(headers: map<string, string>, user: Identity)
    ensures Gate(headers) == Admit(user) <==> HeaderToken(headers) == Some(Sign(Payload(user)))
  {
    var token := HeaderToken(headers);
    if token.Some? {
      VerifyOnlySigned(token.value, Payload(user));
    }
  }

  /** A present token that does not verify is answered "Token is not valid". */
  lemma GateRejectsInvalid(headers: map<string, string>)
    requires !Falsy(HeaderToken(headers)) && VerifyToken(HeaderToken(headers).value).None?
    ensures Gate(headers) == Deny(BadToken)
  {
  }

  /**
   * The middleware: either it writes the 401 and leaves `req.user` and `next`
   * alone, or it sets `req.user` and calls `next()` exactly once; never both.
   */
  method Authenticate(ex: Exchange)
    modifies ex
    ensures match Gate(ex.headers)
              case Admit(user) =>
                ex.user == Some(user) && ex.nextCalls == old(ex.nextCalls) + 1 && ex.response == old(ex.response)
              case Deny(r) =>
                ex.response == Some(r) && ex.nextCalls == old(ex.nextCalls) && ex.user == old(ex.user)
  {
    var token := HeaderToken(ex.headers);
    if token.None? || token.value == "" {
      ex.response := Some(NoToken);
      return;
    }
    var decoded := VerifyToken(token.value);
    if decoded.None? {
      ex.response := Some(BadToken);
      return;
    }
    ex.user := Some(decoded.value.user);
    ex.nextCalls := ex.nextCalls + 1;
  }
}
