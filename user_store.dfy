/**
 * The Mongoose model calls the handlers make (`findOne`, `findById`, `save`,
 * `findByIdAndUpdate`), over a table held in memory. Whether the database call
 * throws is an input (`Conn`), so every store fault path can be reached.
 */
module UserStore {
  import opened Wrappers
  import opened Tokens
  import opened UserModel

  /** Which database calls of one request throw: reads (`findOne`, `findById`) and writes (`save`, `findByIdAndUpdate`). */
  datatype Conn = Conn(readFails: bool, writeFails: bool)

  /** The outcome of one database call: it threw, or it resolved to a value. */
  datatype Query<T> = Fault | Ok(value: T)

  /** A document as `findOne` returns it, with its id. */
  datatype Doc = Doc(id: Id, user: User)

  /** The profile fields of a `$set` update (absent means "not set"). */
  datatype Fields = Fields(
    firstName: Option<string>,
    lastName: Option<string>,
    address: Option<string>,
    phone: Option<string>,
    bio: Option<string>,
    avatar: Option<string>)

  /** Every value the update sets is non-empty. */
  predicate Filled(f: Fields)
  {
    && (f.firstName.Some? ==> f.firstName.value != "")
    && (f.lastName.Some? ==> f.lastName.value != "")
    && (f.address.Some? ==> f.address.value != "")
    && (f.phone.Some? ==> f.phone.value != "")
    && (f.bio.Some? ==> f.bio.value != "")
    && (f.avatar.Some? ==> f.avatar.value != "")
  }

  function SetText(v: Option<string>, current: string): string
  {
    if v.Some? then v.value else current
  }

  function SetOptional(v: Option<string>, current: Option<string>): Option<string>
  {
    if v.Some? then v else current
  }

  /** `{ $set: f }` applied to one document. */
  function Set(u: User, f: Fields): (r: User)
    ensures r.email == u.email && r.password == u.password && r.role == u.role
  {
    u.(firstName := SetText(f.firstName, u.firstName),
       lastName := SetText(f.lastName, u.lastName),
       address := SetOptional(f.address, u.address),
       phone := SetOptional(f.phone, u.phone),
       bio := SetOptional(f.bio, u.bio),
       avatar := SetOptional(f.avatar, u.avatar))
  }

  /** Each set field takes the new value, each unset one keeps the old value. */
  lemma SetFields(u: User, f: Fields)
    ensures f.firstName.Some? ==> Set(u, f).firstName == f.firstName.value
    ensures f.firstName.None? ==> Set(u, f).firstName == u.firstName
    ensures f.lastName.Some? ==> Set(u, f).lastName == f.lastName.value
    ensures f.lastName.None? ==> Set(u, f).lastName == u.lastName
    ensures f.address.Some? ==> Set(u, f).address == f.address
    ensures f.address.None? ==> Set(u, f).address == u.address
    ensures f.phone.Some? ==> Set(u, f).phone == f.phone
    ensures f.phone.None? ==> Set(u, f).phone == u.phone
    ensures f.bio.Some? ==> Set(u, f).bio == f.bio
    ensures f.bio.None? ==> Set(u, f).bio == u.bio
    ensures f.avatar.Some? ==> Set(u, f).avatar == f.avatar
    ensures f.avatar.None? ==> Set(u, f).avatar == u.avatar
  {
  }

  lemma SetIdempotent(u: User, f: Fields)
    ensures Set(Set(u, f), f) == Set(u, f)
  {
  }

  lemma SetNothing(u: User)
    ensures Set(u, Fields(None, None, None, None, None, None)) == u
  {
  }

  /** A filled update cannot clear a required field. */
  lemma SetKeepsRequired(u: User, f: Fields)
    requires Required(u) && Filled(f)
    ensures Required(Set(u, f))
  {
  }

  /** When `save` resolves: the connection holds, the schema validates, and the unique index admits the email. */
  predicate SaveSucceeds(records: map<Id, User>, u: User, conn: Conn)
  {
    !conn.writeFails && Required(u) && !EmailTaken(records, u.email)
  }

  class UserTable {
    var records: map<Id, User>
    var nextId: Id

    function State(): Db
      reads this
    {
      Db(records, nextId)
    }

    ghost predicate Valid()
      reads this
    {
      Consistent(State())
    }

    constructor ()
      ensures Valid() && records == map[] && nextId == 0
    {
      records := map[];
      nextId := 0;
    }

    /** `User.findOne({ email })`. */
    method FindOne(email: string, conn: Conn) returns (q: Query<Option<Doc>>)
      ensures q.Fault? <==> conn.readFails
      ensures q.Ok? ==> (q.value.Some? <==> EmailTaken(records, email))
      ensures q.Ok? && q.value.Some? ==>
                q.value.value.id in records && q.value.value.user == records[q.value.value.id] &&
                q.value.value.user.email == email
    {
      if conn.readFails {
        return Fault;
      }
      if exists id :: id in records && records[id].email == email {
        var id :| id in records && records[id].email == email;
        return Ok(Some(Doc(id, records[id])));
      }
      return Ok(None);
    }

    /** `User.findById(id)`. */
    method FindById(id: Id, conn: Conn) returns (q: Query<Option<User>>)
      ensures q.Fault? <==> conn.readFails
      ensures q.Ok? ==> (q.value.Some? <==> id in records)
      ensures q.Ok? && q.value.Some? ==> q.value.value == records[id]
    {
      if conn.readFails {
        return Fault;
      }
      if id in records {
        return Ok(Some(records[id]));
      }
      return Ok(None);
    }

    /** `user.save()` of a new document: it receives the next id, or the call throws. */
    method Save(u: User, conn: Conn) returns (q: Query<Id>)
      requires Valid()
      modifies this
      ensures Valid()
      ensures SaveSucceeds(old(records), u, conn) ==> q == Ok(old(nextId)) && State() == Insert(old(State()), u)
      ensures !SaveSucceeds(old(records), u, conn) ==> q == Fault && State() == old(State())
    {
      if conn.writeFails || !Required(u) || exists id :: id in records && records[id].email == u.email {
        return Fault;
      }
      InsertKeepsConsistent(State(), u);
      q := Ok(nextId);
      records := records[nextId := u];
      nextId := nextId + 1;
    }

    /**
     * `User.findByIdAndUpdate(id, { $set: f }, { new: true })`: the updated document,
     * or `None` when there is none. It runs no schema validators, so the table stays
     * schema-valid only when the update sets non-empty values.
     */
    method FindByIdAndUpdate(id: Id, f: Fields, conn: Conn) returns (q: Query<Option<User>>)
      requires Valid()
      modifies this
      ensures Filled(f) ==> Valid()
      ensures nextId == old(nextId)
      ensures conn.writeFails ==> q == Fault && records == old(records)
      ensures !conn.writeFails && id !in old(records) ==> q == Ok(None) && records == old(records)
      ensures !conn.writeFails && id in old(records) ==>
                records == old(records)[id := Set(old(records)[id], f)] && q == Ok(Some(records[id]))
    {
      if conn.writeFails {
        return Fault;
      }
      if id !in records {
        return Ok(None);
      }
      var updated := Set(records[id], f);
      if Filled(f) {
        SetKeepsRequired(records[id], f);
      }
      records := records[id := updated];
      q := Ok(Some(updated));
    }
  }
}
