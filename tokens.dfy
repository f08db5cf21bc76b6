/**
 * Bearer tokens as the handlers and gates use jsonwebtoken: `jwt.sign({user:{id}}, secret,
 * {expiresIn:"1h"})` and `jwt.verify(token, secret)`. The encoding stands in for a signed
 * JWT: a fixed prefix followed by the canonical decimal form of the user id. Only the token
 * `Sign` produced for a payload verifies to that payload; every other string (a forged,
 * malformed or, in jsonwebtoken, expired token) verifies to `None`.
 */
module Tokens {
  import opened Wrappers

  /** Store-assigned record identifier (a MongoDB ObjectId). */
  type Id = nat

  /** `decoded.user`: the identity a verified token carries. */
  datatype Identity = Identity(id: Id)

  /** The signed payload `{ user: { id } }`. */
  datatype Payload = Payload(user: Identity)

  const Prefix: string := "jwt."

  predicate IsDigit(c: char)
  {
    '0' <= c <= '9'
  }

  predicate AllDigits(s: string)
  {
    forall i :: 0 <= i < |s| ==> IsDigit(s[i])
  }

  /** A decimal numeral without leading zeros. */
  predicate Canonical(s: string)
  {
    |s| >= 1 && AllDigits(s) && (s[0] == '0' ==> |s| == 1)
  }

  function DigitChar(d: nat): (c: char)
    requires d < 10
    ensures IsDigit(c)
  {
    ('0' as int + d) as char
  }

  function DigitValue(c: char): (d: nat)
    requires IsDigit(c)
    ensures d < 10 && DigitChar(d) == c
  {
    c as int - '0' as int
  }

  /** The decimal numeral of `n`. */
  function Digits(n: nat): (s: string)
    ensures |s| >= 1 && AllDigits(s)
    ensures s[0] == '0' <==> n == 0
    decreases n
  {
    if n < 10 then [DigitChar(n)] else Digits(n / 10) + [DigitChar(n % 10)]
  }

  /** The number a numeral denotes. */
  function Value(s: string): nat
    requires AllDigits(s)
  {
    if s == [] then 0 else 10 * Value(s[..|s| - 1]) + DigitValue(s[|s| - 1])
  }

  lemma {:induction false} ValueOfDigits(n: nat)
    ensures Value(Digits(n)) == n
    decreases n
  {
    if n >= 10 {
      ValueOfDigits(n / 10);
      var s := Digits(n / 10) + [DigitChar(n % 10)];
      assert s[..|s| - 1] == Digits(n / 10);
    }
  }

  lemma {:induction false} ValuePositive(s: string)
    requires |s| >= 1 && AllDigits(s) && s[0] != '0'
    ensures Value(s) > 0
    decreases |s|
  {
    if |s| > 1 {
      ValuePositive(s[..|s| - 1]);
    }
  }

  lemma {:induction false} DigitsOfValue(s: string)
    requires Canonical(s)
    ensures Digits(Value(s)) == s
    decreases |s|
  {
    if |s| == 1 {
      assert s[..0] == [];
    } else {
      var init, last := s[..|s| - 1], s[|s| - 1];
      assert init[0] == s[0];
      DigitsOfValue(init);
      ValuePositive(init);
      var v := Value(s);
      assert v == 10 * Value(init) + DigitValue(last);
      assert v / 10 == Value(init) && v % 10 == DigitValue(last);
      assert s == init + [last];
    }
  }

  lemma DigitsInjective(m: nat, n: nat)
    ensures Digits(m) == Digits(n) <==> m == n
  {
    ValueOfDigits(m);
    ValueOfDigits(n);
  }

  /** `jwt.sign`: a token for the payload; it is never the empty (falsy) string. */
  function Sign(p: Payload): (t: string)
    ensures |t| > |Prefix| && t[..|Prefix|] == Prefix
  {
    Prefix + Digits(p.user.id)
  }

  /** `jwt.verify`: the payload a token was signed with, or `None` when it does not verify. */
  function VerifyToken(t: string): Option<Payload>
  {
    if |t| > |Prefix| && t[..|Prefix|] == Prefix && Canonical(t[|Prefix|..])
    then Some(Payload(Identity(Value(t[|Prefix|..]))))
    else None
  }

  /** A token verifies to payload `p` exactly when it is the token signed for `p`. */
  lemma VerifyOnlySigned(t: string, p: Payload)
    ensures VerifyToken(Sign(p)) == Some(p)
    ensures VerifyToken(t) == Some(p) <==> t == Sign(p)
  {
    var s := Sign(p);
    assert s[|Prefix|..] == Digits(p.user.id);
    ValueOfDigits(p.user.id);
    if VerifyToken(t) == Some(p) {
      DigitsOfValue(t[|Prefix|..]);
      assert t == t[..|Prefix|] + t[|Prefix|..];
    }
  }
}
