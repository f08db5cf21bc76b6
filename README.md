# Credential service core, modelled in Dafny

This project models the request-decision core of a small Express credential
service: registering a user, logging in for a bearer token, reading and
updating one's profile, the token gate that guards the profile routes, and a
role gate. The user collection is a table of documents keyed by id with a
unique index on email. Password hashing (bcryptjs), token signing
(jsonwebtoken) and the database (Mongoose) are replaced by small models with
the properties the handlers rely on:

- `Passwords`: `Hash(plain, salt)` yields a digest carrying its salt and the
  cost 10. `Verify` recomputes under the digest's own salt and cost, as
  `bcrypt.compare` does. A digest accepts its own plaintext and no other
  (`VerifyHash`). The salt that `genSalt` draws at random is a parameter.
- `Tokens`: `Sign(payload)` writes the payload's user id in canonical decimal
  after a fixed prefix. `VerifyToken` parses it back. A token verifies to a
  payload exactly when it is the token signed for that payload
  (`VerifyOnlySigned`, proved by induction over numerals). Forged, malformed
  and expired tokens all verify to `None`.
- `UserStore.UserTable`: a class holding `records: map<Id, User>` and the next
  id, with methods for `findOne`, `findById`, `save` and `findByIdAndUpdate`.
  `save` enforces the schema's required fields and the unique email index.
  Whether a database call throws is an input, `Conn(readFails, writeFails)`.
- Express's request and response become `Http.Exchange`. It holds the
  headers, `req.user`, the response written so far and the number of `next()`
  calls. Validation results from express-validator are an input (`errors`); an
  empty list means the checks passed.

Registration and login are specified once, in `Accounts`, as functions from
the collection to a response and a new collection. The two handler files
(`AuthController` for controllers/authController.js, `SrcAuthController` for
src/controllers/authController.js) are methods on the table proved to produce
exactly those outcomes. They differ only in the role copied into the new
document. The same pattern holds for `ProfileController.UpdateProfile` and
`UpdateOutcome`, and for the gates: in `AuthMiddleware.Gate` and
`SrcAuthMiddleware.RoleGate` the decision is a pure function, and the methods
`Authenticate` and `Authorize` carry out its effects on the exchange.

The 500 bodies are not uniform: the auth handlers send the text "Server error",
the profile handlers send "Server Error", and `authorize` sends the JSON
`{msg: "Server error"}`. `updateProfile` returns the whole updated document,
password digest included (`UserJson`), while `getProfile` leaves the password
out. Login does not consult the validation result, so the model's login takes
none.

## Model

| member | source | states |
|---|---|---|
| Passwords.Hash | src/controllers/authController.js:49-50 | the digest carries the salt it was made with and the cost 10 passed to `genSalt` |
| Passwords.ImageInjective | src/controllers/authController.js:96 | under one salt and cost, two plaintexts derive the same image only if they are equal |
| Passwords.VerifyHash | src/controllers/authController.js:96 | `compare` accepts the password a digest was made from, and accepts another plaintext only if it equals that password |
| Tokens.Digits | src/controllers/authController.js:56-60 | the id's numeral is a non-empty digit string whose first digit is zero only for id 0 |
| Tokens.ValueOfDigits | src/controllers/authController.js:56-60 | reading a numeral back gives the id it was written from |
| Tokens.DigitsOfValue | src/middleware/auth.js:29 | a canonical numeral is the numeral of its own value |
| Tokens.DigitsInjective | src/middleware/auth.js:29 | distinct ids have distinct numerals |
| Tokens.Sign | src/controllers/authController.js:62-69 | a signed token is never an empty string and always starts with the token prefix |
| Tokens.VerifyOnlySigned | src/middleware/auth.js:29 | a token verifies to payload p exactly when it is the token signed for p, so `Sign` followed by `VerifyToken` gives back the payload |
| UserModel.OwnerUnique | models/User.js:29 | under the unique email index, the document found for an email is the only one holding it |
| UserModel.InsertKeepsConsistent | models/User.js:24-34 | inserting a schema-valid document with an unused email keeps required fields, unique emails and id bounds, and adds exactly one document while leaving the others unchanged |
| UserModel.ProjectionDropsOnlyPassword | src/controllers/profileController.js:18 | the password-less projection plus the password gives back the document, and the projection ignores the password |
| UserModel.OptionalFieldsMayBeAbsent | models/User.js:24-34 | a document with non-empty names and email is schema-valid with address, phone, bio, avatar and role all absent |
| UserStore.Set | src/controllers/profileController.js:61-65 | a `$set` of profile fields never changes email, password digest or role |
| UserStore.SetFields | src/controllers/profileController.js:61-65 | each field the update sets takes its new value, and each field it does not set keeps its old value |
| UserStore.SetIdempotent | src/controllers/profileController.js:61-65 | applying the same `$set` twice gives the same document as applying it once |
| UserStore.SetNothing | src/controllers/profileController.js:61-65 | an update that sets no field leaves the document as it was |
| UserStore.SetKeepsRequired | models/User.js:25-26 | an update whose values are all non-empty cannot clear a required field |
| UserStore.UserTable.FindOne | src/controllers/authController.js:31 | fails exactly on a read fault; otherwise finds a document exactly when some document holds the email, and the document found holds it |
| UserStore.UserTable.FindById | src/controllers/profileController.js:54 | fails exactly on a read fault; otherwise returns the document under the id, or none when the id is absent |
| UserStore.UserTable.Save | src/controllers/authController.js:53 | succeeds exactly when the write holds, the schema validates and the email is unused; it then stores the document under the next id, and on failure changes nothing |
| UserStore.UserTable.FindByIdAndUpdate | src/controllers/profileController.js:61-65 | on success writes the `$set` into the one document and returns the updated document; an absent id or a write fault changes nothing |
| Accounts.RegisterOutcome | src/controllers/authController.js:20-75 | every non-200 outcome leaves the collection unchanged; a 200 outcome inserts the new document with the hashed password and returns a token for the new id |
| Accounts.LoginOutcome | src/controllers/authController.js:84-122 | a 200 outcome holds a token for the document owning the email, whose digest accepts the password; every 400 is "Invalid credentials" and every 500 is "Server error" |
| Accounts.RegisterRejectsInvalid | src/controllers/authController.js:22-25 | validation errors give 400 with that list and no change, whatever the collection, salt or connection |
| Accounts.RegisterRejectsTakenEmail | src/controllers/authController.js:31-35 | an email already stored gives 400 "User already exists" and leaves the collection unchanged |
| Accounts.RegisterAddsOne | src/controllers/authController.js:38-69 | a fresh registration adds exactly one document under the new id, with the body's fields and the digest of the password; that digest accepts only that password, the collection stays consistent, and the token verifies to the new id |
| Accounts.RegisterFaults | src/controllers/authController.js:71-74 | a read fault, a write fault or a missing password yields no token; a read fault, or for an unused email any of the three faults, gives 500 "Server error" with no change |
| Accounts.RegisterKeepsConsistent | src/controllers/authController.js:20-75 | every registration outcome keeps the collection consistent: schema-valid documents and unique emails |
| Accounts.RegisterTwice | tests/controllers/authController.test.js:35-47 | after a successful registration, a second one with the same email gets "User already exists", whatever its other fields |
| Accounts.LoginRejectsUnknownAndWrong | src/controllers/authController.js:89-100 | an unknown email and a wrong password both give the identical 400 "Invalid credentials" |
| Accounts.LoginSucceeds | src/controllers/authController.js:96-116 | the correct password for a stored document yields a token that verifies to that document's id |
| Accounts.LoginFaults | src/controllers/authController.js:118-121 | a read fault, or a missing password for a known email, gives 500 "Server error" |
| Accounts.LoginAfterRegister | tests/controllers/authController.test.js:50-73 | after registering, login with the registered password yields a token for the new id, and any other password gets "Invalid credentials" |
| AuthController.Register | controllers/authController.js:9-63 | the live handler's response and new collection are exactly the registration outcome with no role |
| AuthController.Login | controllers/authController.js:66-104 | the live handler's response is exactly the login outcome, and it modifies nothing |
| AuthController.RegisterStoresNoRole | controllers/authController.js:16-38 | the created document is exactly firstName, lastName, address, phone and email from the body plus the password digest, with no role |
| SrcAuthController.Register | src/controllers/authController.js:20-75 | the handler's response and new collection are exactly the registration outcome with the body's role |
| SrcAuthController.Login | src/controllers/authController.js:84-122 | the handler's response is exactly the login outcome, and it modifies nothing |
| SrcAuthController.RegisterStoresRole | src/controllers/authController.js:27-46 | the created document carries the body's six fields, the password digest and the body's role |
| ProfileController.GetProfile | src/controllers/profileController.js:16-27 | 200 exactly when the store answers and the authenticated id is stored, with a body that plus the stored password is the stored document; 404 "User not found" exactly when the id is absent; otherwise 500 |
| ProfileController.Keep | src/controllers/profileController.js:46-51 | a body field is kept exactly when it is truthy, and a kept field carries the body's value |
| ProfileController.ProfileFields | src/controllers/profileController.js:45-51 | every value in the update set is non-empty |
| ProfileController.UpdateOutcome | src/controllers/profileController.js:36-72 | a non-200 outcome changes nothing; no outcome adds or removes a document; a 200 outcome writes the filtered fields into the user's document and returns that stored document |
| ProfileController.UpdateProfile | src/controllers/profileController.js:36-72 | the handler's response and new collection are exactly the update outcome, and the collection stays consistent |
| ProfileController.UpdateRejectsInvalid | src/controllers/profileController.js:37-40 | validation errors give 400 with the list and leave the collection unchanged |
| ProfileController.UpdateMissing | src/controllers/profileController.js:54-58 | a missing document gives 404 "User not found" and no update |
| ProfileController.UpdateFrame | src/controllers/profileController.js:42-67 | after an update each truthy field holds its new value; every other field, including email, password and role, is unchanged; no other document changes; the response is the stored document |
| ProfileController.EmptyStringCannotClear | src/controllers/profileController.js:46-51 | for each of the six fields separately, an empty string in the body is skipped, so it cannot clear that field |
| ProfileController.UpdateFaults | src/controllers/profileController.js:53-70 | a read fault, a missing `req.user`, or a write fault on an existing document gives 500 "Server Error" and leaves the collection unchanged |
| ProfileController.UpdateIdempotent | src/controllers/profileController.js:61-67 | applying the same update twice gives the same collection and response as applying it once |
| ProfileController.UpdateKeepsConsistent | src/controllers/profileController.js:61-65 | every update outcome keeps the collection consistent |
| AuthMiddleware.Gate | middleware/auth.js:17-35 | every refusal is a 401; the refusal is "No token, authorization denied" exactly when the header is missing or empty; an admitted identity is the one the token verifies to |
| AuthMiddleware.GateAdmitsSigned | middleware/auth.js:26-31 | the gate admits a request as an identity exactly when its header holds the token signed for that identity |
| AuthMiddleware.GateRejectsInvalid | middleware/auth.js:32-34 | a present token that does not verify gets 401 "Token is not valid" |
| AuthMiddleware.Authenticate | middleware/auth.js:17-35 | exactly one of two things happens: the 401 is written with `req.user` and `next` untouched, or `req.user` is set and `next` is called exactly once |
| SrcAuthMiddleware.RoleGate | src/middleware/auth.js:44-59 | next exactly when the store answers, the document exists and its role is in the list; 403 "Unauthorized" exactly when the document exists with a role outside the list; otherwise 500 |
| SrcAuthMiddleware.EmptyAllowListDeniesAll | src/middleware/auth.js:49 | with an empty allow-list no request passes |
| SrcAuthMiddleware.Authenticate | src/middleware/auth.js:18-36 | the same decision and effects as the token gate of middleware/auth.js |
| SrcAuthMiddleware.Authorize | src/middleware/auth.js:44-59 | carries out the role decision: `next` is called exactly once when it passes, and otherwise the refusal is written and `next` is not called |
| Scenarios.RegisterAndLogin | tests/controllers/authController.test.js:20-73 | on an empty collection: John registers and gets a token for id 0; Jane with the same email gets "User already exists"; "wrongpassword" gets "Invalid credentials"; "password" gets the token for id 0 |
| Scenarios.RegisteredTokenOpensProfile | tests/controllers/profileController.test.js:44-54 | the token a registration returns passes the auth gate as the new id, and the profile then read is the new document without its password |
| Scenarios.UpdateShowsNewValues | tests/controllers/profileController.test.js:56-74 | updating names, address and phone returns those values and keeps bio and avatar |
| Scenarios.PatientRoute | tests/rbac.test.js:64-80 | on a route allowed to patients, a patient passes and a doctor gets 403 "Unauthorized" |

## Left out

- bcrypt's key derivation is not modelled: `Passwords.Image` is an injective stand-in. Its one-wayness and bcrypt's truncation of passwords to 72 bytes are not captured, and with truncation two long passwords could share a digest.
- JWT structure, the signing secret and the one-hour expiry are not modelled: expired and forged tokens both verify to `None`. A verified payload always carries `user`. The throw from the `jwt.sign` callback escaping the `try` block (src/controllers/authController.js:66-67) is not modelled; signing is total.
- Mongoose internals are not modelled: query casting, strict-mode dropping of undeclared fields, `_id`, `__v` and the timestamps. The profile view therefore carries no id or timestamps.
- The check-then-insert race between concurrent registrations with the same email is not modelled. Requests are sequential, and `save`'s unique index check is what the model enforces.
- `AuthController.Login`, `SrcAuthController.Login`: a login body without an email is not modelled: the email is always a string, and the effect of `findOne({ email: undefined })` is left to Mongoose.
- The plaintext is in the unsaved document until `user.password` is overwritten (src/controllers/authController.js:44-50). The model builds the document after hashing, so that short-lived intermediate object is not captured.
- Express routing files, express-validator's rules, app.js, server.js and config/db.js are not modelled: validation results enter the handlers as an error list.
- src/models/User.js, which the src/ controllers load, is not part of this model. Its role field is modelled by the `role` field of `UserModel.User`, which models/User.js does not declare and which the live registration handler never sets.
- Logging by `console.error` is not modelled.
- Request body fields are modelled as strings or absent (`Accounts.RegisterBody`, `UserStore.Fields`): JSON numbers, booleans and objects, their JavaScript truthiness in the six checks of src/controllers/profileController.js:46-51 (`bio: 0` skipped, `bio: true` set and cast to "true") and Mongoose's casting of them are not captured.
- Validation errors are modelled as a list of messages: the objects `errors.array()` sends (`msg`, `path`, `location`, `value`; src/controllers/authController.js:24, src/controllers/profileController.js:39) are reduced to their `msg`.
