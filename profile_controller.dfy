/**
 * src/controllers/profileController.js: reading the authenticated user's
 * document without its password, and a selective update of six profile
 * fields in which only truthy values are written.
 */
module ProfileController {
  import opened Wrappers
  import opened Tokens
  import opened UserModel
  import opened UserStore
  import opened Http

  const NotFound := Response(404, MsgJson("User not found"))
  const ServerFault := Response(500, Text("Server Error"))

  /**
   * `getProfile` for the identity the auth gate attached (`None` when `req.user`
   * is missing, which makes `req.user.id` throw).
   */
  function GetProfile(records: map<Id, User>, user: Option<Identity>, conn: Conn): (r: Response)
    ensures r.status == 200 <==> !conn.readFails && user.Some? && user.value.id in records
    ensures r.status == 200 ==>
              r.body.ProfileJson? && WithPassword(r.body.profile, records[user.value.id].password) == records[user.value.id]
    ensures r.status == 404 <==> !conn.readFails && user.Some? && user.value.id !in records
    ensures r.status != 200 ==> r == NotFound || r == ServerFault
  {
    if conn.readFails || user.None? then ServerFault
    else if user.value.id !in records then NotFound
    else Response(200, ProfileJson(WithoutPassword(records[user.value.id])))
  }

  /** JavaScript truthiness of an optional string body field. */
  predicate Truthy(v: Option<string>)
  {
    v.Some? && v.value != ""
  }

  /** `if (x) profileFields.x = x`: the field is kept exactly when it is truthy. */
  function Keep(v: Option<string>): (k: Option<string>)
    ensures k.Some? <==> Truthy(v)
    ensures k.Some? ==> k == v
  {
    if Truthy(v) then v else None
  }

  /** The `profileFields` object built from the request body. */
  function ProfileFields(body: Fields): (f: Fields)
    ensures Filled(f)
  {
    Fields(Keep(body.firstName), Keep(body.lastName), Keep(body.address),
           Keep(body.phone), Keep(body.bio), Keep(body.avatar))
  }

  /** The outcome of `updateProfile` over the collection. */
  ghost function UpdateOutcome(db: Db, user: Option<Identity>, body: Fields, errors: seq<string>, conn: Conn): (s: Step)
    ensures s.res.status != 200 ==> s.db == db
    ensures s.db.nextId == db.nextId && s.db.records.Keys == db.records.Keys
    ensures s.res.status == 200 ==>
              && user.Some? && user.value.id in db.records
              && s.db.records == db.records[user.value.id := Set(db.records[user.value.id], ProfileFields(body))]
              && s.res == Response(200, UserJson(s.db.records[user.value.id]))
  {
    if |errors| > 0 then Step(Response(400, ErrorsJson(errors)), db)
    else if conn.readFails || user.None? then Step(ServerFault, db)
    else if user.value.id !in db.records then Step(NotFound, db)
    else if conn.writeFails then Step(ServerFault, db)
    else
      var id := user.value.id;
      var updated := Set(db.records[id], ProfileFields(body));
      Step(Response(200, UserJson(updated)), Db(db.records[id := updated], db.nextId))
  }

  /** `updateProfile`: build `profileFields` field by field, check the document exists, then `$set` it. */
  method UpdateProfile(table: UserTable, user: Option<Identity>, body: Fields, errors: seq<string>, conn: Conn)
    returns (res: Response)
    requires table.Valid()
    modifies table
    ensures table.Valid()
    ensures res == UpdateOutcome(old(table.State()), user, body, errors, conn).res
    ensures table.State() == UpdateOutcome(old(table.State()), user, body, errors, conn).db
  {
    if |errors| > 0 {
      return Response(400, ErrorsJson(errors));
    }
    var profileFields := Fields(None, None, None, None, None, None);
    if Truthy(body.firstName) { profileFields := profileFields.(firstName := body.firstName); }
    if Truthy(body.lastName) { profileFields := profileFields.(lastName := body.lastName); }
    if Truthy(body.address) { profileFields := profileFields.(address := body.address); }
    if Truthy(body.phone) { profileFields := profileFields.(phone := body.phone); }
    if Truthy(body.bio) { profileFields := profileFields.(bio := body.bio); }
    if Truthy(body.avatar) { profileFields := profileFields.(avatar := body.avatar); }
    assert profileFields == ProfileFields(body);

    if user.None? {
      return ServerFault;
    }
    var found := table.FindById(user.value.id, conn);
    if found.Fault? {
      return ServerFault;
    }
    if found.value.None? {
      return NotFound;
    }
    var updated := table.FindByIdAndUpdate(user.value.id, profileFields, conn);
    if updated.Fault? {
      return ServerFault;
    }
    res := Response(200, UserJson(updated.value.value));
  }

  /** Validation errors give 400 with the list and leave the collection unchanged. */
  lemma UpdateRejectsInvalid(db: Db, user: Option<Identity>, body: Fields, errors: seq<string>, conn: Conn)
    requires |errors| > 0
    ensures UpdateOutcome(db, user, body, errors, conn) == Step(Response(400, ErrorsJson(errors)), db)
  {
  }

  /** A missing document gives 404 and no update. */
  lemma UpdateMissing(db: Db, id: Id, body: Fields, conn: Conn)
    requires id !in db.records && !conn.readFails
    ensures UpdateOutcome(db, Some(Identity(id)), body, [], conn) == Step(NotFound, db)
  {
  }

  /**
   * After a successful update, each truthy body field holds its new value, every
   * other field (email, password and role included) is unchanged, no other
   * document changes, and the response is the stored document.
   */
  lemma UpdateFrame(db: Db, id: Id, body: Fields, conn: Conn)
    requires id in db.records && !conn.readFails && !conn.writeFails
    ensures var s := UpdateOutcome(db, Some(Identity(id)), body, [], conn);
            var was, now := db.records[id], s.db.records[id];
            && s.res == Response(200, UserJson(now))
            && (forall other :: other in db.records && other != id ==> s.db.records[other] == db.records[other])
            && now.email == was.email && now.password == was.password && now.role == was.role
            && now.firstName == (if Truthy(body.firstName) then body.firstName.value else was.firstName)
            && now.lastName == (if Truthy(body.lastName) then body.lastName.value else was.lastName)
            && now.address == (if Truthy(body.address) then body.address else was.address)
            && now.phone == (if Truthy(body.phone) then body.phone else was.phone)
            && now.bio == (if Truthy(body.bio) then body.bio else was.bio)
            && now.avatar == (if Truthy(body.avatar) then body.avatar else was.avatar)
  {
  }

  /** An empty string in the body is skipped, so it cannot clear the field it names. */
  lemma EmptyStringCannotClear(u: User, body: Fields)
    ensures body.firstName == Some("") ==> Set(u, ProfileFields(body)).firstName == u.firstName
    ensures body.lastName == Some("") ==> Set(u, ProfileFields(body)).lastName == u.lastName
    ensures body.address == Some("") ==> Set(u, ProfileFields(body)).address == u.address
    ensures body.phone == Some("") ==> Set(u, ProfileFields(body)).phone == u.phone
    ensures body.bio == Some("") ==> Set(u, ProfileFields(body)).bio == u.bio
    ensures body.avatar == Some("") ==> Set(u, ProfileFields(body)).avatar == u.avatar
  {
  }

  /** A store fault, or a missing `req.user`, gives 500 "Server Error" and no update. */
  lemma UpdateFaults(db: Db, user: Option<Identity>, body: Fields, conn: Conn)
    requires conn.readFails || user.None? || (user.value.id in db.records && conn.writeFails)
    ensures UpdateOutcome(db, user, body, [], conn) == Step(ServerFault, db)
  {
  }

  /** Applying the same update twice gives the same collection and response as applying it once. */
  lemma UpdateIdempotent(db: Db, user: Option<Identity>, body: Fields, conn: Conn)
    ensures var once := UpdateOutcome(db, user, body, [], conn);
            UpdateOutcome(once.db, user, body, [], conn) == once
  {
  }

  /** Every update outcome leaves a consistent collection consistent. */
  lemma UpdateKeepsConsistent(db: Db, user: Option<Identity>, body: Fields, errors: seq<string>, conn: Conn)
    requires Consistent(db)
    ensures Consistent(UpdateOutcome(db, user, body, errors, conn).db)
  {
  }
}
