/**
 * The User schema of models/User.js and the table of User documents it defines:
 * firstName, lastName, email and password are required, address, phone, bio and
 * avatar optional, and email carries a unique index.
 */
module UserModel {
  import opened Wrappers
  import opened Passwords
  import opened Tokens

  /**
   * A stored User document. The password field holds the bcrypt digest. `role` is
   * not a field of models/User.js: it is here because the src/ registration
   * handler passes one, and the live registration handler always leaves it absent.
   */
  datatype User = User(
    firstName: string,
    lastName: string,
    address: Option<string>,
    phone: Option<string>,
    email: string,
    password: Digest,
    bio: Option<string>,
    avatar: Option<string>,
    role: Option<string>)

  /**
   * The schema's `required: true` rules. Mongoose's required check on a String
   * rejects both a missing value and the empty string, so a required field is
   * modelled as a string that must be non-empty; the password is a digest,
   * which is always present.
   */
  predicate Required(u: User)
  {
    u.firstName != "" && u.lastName != "" && u.email != ""
  }

  /** The unique index on email. */
  predicate UniqueEmails(records: map<Id, User>)
  {
    forall i, j :: i in records && j in records && records[i].email == records[j].email ==> i == j
  }

  /** The collection: documents by id, and the next id the store will assign. */
  datatype Db = Db(records: map<Id, User>, nextId: Id)

  /** Every stored document satisfies the schema, emails are unique and ids are below `nextId`. */
  predicate Consistent(db: Db)
  {
    && UniqueEmails(db.records)
    && forall id :: id in db.records ==> id < db.nextId && Required(db.records[id])
  }

  predicate EmailTaken(records: map<Id, User>, email: string)
  {
    exists id :: id in records && records[id].email == email
  }

  /** The id of the document holding `email`. */
  ghost function OwnerOf(records: map<Id, User>, email: string): (id: Id)
    requires EmailTaken(records, email)
    ensures id in records && records[id].email == email
  {
    var id :| id in records && records[id].email == email; id
  }

  /** Under the unique index, the document holding an email is the one `OwnerOf` names. */
  lemma OwnerUnique(records: map<Id, User>, email: string, id: Id)
    requires UniqueEmails(records)
    requires id in records && records[id].email == email
    ensures EmailTaken(records, email) && OwnerOf(records, email) == id
  {
  }

  /** Storing a new document under the next free id. */
  function Insert(db: Db, u: User): Db
  {
    Db(db.records[db.nextId := u], db.nextId + 1)
  }

  /**
   * Inserting a schema-valid document whose email is not yet taken keeps the
   * collection consistent and adds exactly one document.
   */
  lemma InsertKeepsConsistent(db: Db, u: User)
    requires Consistent(db) && Required(u) && !EmailTaken(db.records, u.email)
    ensures Consistent(Insert(db, u))
    ensures db.nextId !in db.records
    ensures |Insert(db, u).records| == |db.records| + 1
    ensures Insert(db, u).records[db.nextId] == u
    ensures forall id :: id in db.records ==> id in Insert(db, u).records && Insert(db, u).records[id] == db.records[id]
  {
  }

  /** A document as `findById(...).select("-password")` returns it. */
  datatype Profile = Profile(
    firstName: string,
    lastName: string,
    address: Option<string>,
    phone: Option<string>,
    email: string,
    bio: Option<string>,
    avatar: Option<string>,
    role: Option<string>)

  function WithoutPassword(u: User): Profile
  {
    Profile(u.firstName, u.lastName, u.address, u.phone, u.email, u.bio, u.avatar, u.role)
  }

  function WithPassword(p: Profile, d: Digest): User
  {
    User(p.firstName, p.lastName, p.address, p.phone, p.email, d, p.bio, p.avatar, p.role)
  }

  /** The projection drops the password and nothing else. */
  lemma ProjectionDropsOnlyPassword(u: User, d: Digest)
    ensures WithPassword(WithoutPassword(u), u.password) == u
    ensures WithoutPassword(u.(password := d)) == WithoutPassword(u)
  {
  }

  /** The optional fields may all be absent in a schema-valid document. */
  lemma OptionalFieldsMayBeAbsent(first: string, last: string, email: string, d: Digest)
    requires first != "" && last != "" && email != ""
    ensures Required(User(first, last, None, None, email, d, None, None, None))
  {
  }
}
