/**
 * Password hashing as the handlers use bcryptjs: `genSalt(10)` followed by
 * `hash(password, salt)` on registration, `compare(password, user.password)`
 * on login. The key-derivation function itself is not modelled: `Image` is a
 * stand-in that is deterministic in (plaintext, salt, cost) and injective in
 * the plaintext, which is all the handlers rely on.
 */
module Passwords {

  /** The salt `genSalt` draws at random; the model receives it as a parameter. */
  type Salt = nat

  /** The work factor both registration handlers pass to `genSalt`. */
  const Rounds: nat := 10

  /** A self-describing digest: like bcrypt's "$2a$10$..." string it carries its salt and cost. */
  datatype Digest = Digest(salt: Salt, cost: nat, image: seq<int>)

  /** Stand-in for the key derivation under a given salt and cost. */
  function Image(plain: string, salt: Salt, cost: nat): seq<int>
  {
    seq(|plain|, i requires 0 <= i < |plain| => plain[i] as int + salt + cost)
  }

  lemma ImageInjective(p: string, q: string, salt: Salt, cost: nat)
    ensures Image(p, salt, cost) == Image(q, salt, cost) <==> p == q
  {
    if Image(p, salt, cost) == Image(q, salt, cost) {
      assert |p| == |q|;
      forall i | 0 <= i < |p|
        ensures p[i] == q[i]
      {
        assert Image(p, salt, cost)[i] == Image(q, salt, cost)[i];
      }
    }
  }

  /** `bcrypt.hash(plain, salt)` with a salt generated for cost `Rounds`. */
  function Hash(plain: string, salt: Salt): (d: Digest)
    ensures d.salt == salt && d.cost == Rounds
  {
    Digest(salt, Rounds, Image(plain, salt, Rounds))
  }

  /** `bcrypt.compare`: recompute under the digest's own salt and cost and compare images. */
  predicate Verify(plain: string, digest: Digest)
  {
    Image(plain, digest.salt, digest.cost) == digest.image
  }

  /** A digest accepts the plaintext it was made from, and no other one. */
  lemma VerifyHash(plain: string, other: string, salt: Salt)
    ensures Verify(plain, Hash(plain, salt))
    ensures Verify(other, Hash(plain, salt)) <==> other == plain
  {
    ImageInjective(plain, other, salt, Rounds);
  }
}
