/**
 * The two foreign libraries the flows call, bcryptjs and jsonwebtoken, as
 * values of function type passed in by the caller.  What the flows rely on
 * from them is stated as predicates that the lemmas take as hypotheses.
 */
module Crypto {
  import opened Wrappers
  import opened UserModel

  /** The random salt bcrypt draws on every call; the randomness itself is not modelled. */
  type Salt = nat

  /** The cost factor passed to `bcrypt.hash(password, 10)`. */
  const SaltRounds: nat := 10

  /** The `expiresIn: '2h'` lifetime of an issued token, in seconds. */
  const TokenLifetime: nat := 7200

  /** The payload `{ id }` that login signs and the gate decodes into `req.user`. */
  datatype Claim = Claim(id: Id)

  /**
   * bcrypt: `hash(password, rounds, salt)` and `compare(password, hash)`.
   * A `Failure` carries the message of the exception the library throws.
   * `significant(password)` is the part of a password the library reads:
   * bcryptjs uses the first 72 bytes of its UTF-8 encoding and silently
   * drops the rest.
   */
  datatype Hasher = Hasher(
    hash: (string, nat, Salt) -> Result<string, string>,
    compare: (string, string) -> Result<bool, string>,
    significant: string -> string)

  /** A hash made from a password matches that password. */
  ghost predicate Matches(h: Hasher)
  {
    forall p: string, rounds: nat, salt: Salt :: h.hash(p, rounds, salt).Success? ==>
      h.compare(p, h.hash(p, rounds, salt).value) == Success(true)
  }

  /** A hash made from one password matches no password that differs from it in the part the library reads. */
  ghost predicate Separates(h: Hasher)
  {
    forall p: string, q: string, rounds: nat, salt: Salt ::
      h.significant(p) != h.significant(q) && h.hash(p, rounds, salt).Success? ==>
        h.compare(q, h.hash(p, rounds, salt).value) == Success(false)
  }

  /** The comparison reads only the significant part: a password agreeing there with the hashed one matches. */
  ghost predicate ComparesSignificant(h: Hasher)
  {
    forall p: string, q: string, rounds: nat, salt: Salt ::
      h.significant(p) == h.significant(q) && h.hash(p, rounds, salt).Success? ==>
        h.compare(q, h.hash(p, rounds, salt).value) == Success(true)
  }

  /** The hash is never the plaintext itself. */
  ghost predicate HidesPlaintext(h: Hasher)
  {
    forall p: string, rounds: nat, salt: Salt :: h.hash(p, rounds, salt).Success? ==> h.hash(p, rounds, salt).value != p
  }

  /**
   * jsonwebtoken: `sign(claim, secret, issuedAt, lifetime)` and
   * `verify(token, secret, now)`, which yields the decoded claim or `None`
   * where the library throws.
   */
  datatype Signer = Signer(
    sign: (Claim, string, nat, nat) -> string,
    verify: (string, Option<string>, nat) -> Option<Claim>)

  /**
   * A token opens, under the non-empty secret that signed it, to the claim
   * it was signed with until its lifetime has passed, and not afterwards;
   * a compact token is never empty and never contains a space.
   */
  ghost predicate Sound(j: Signer)
  {
    && (forall c: Claim, k: string, iat: nat, life: nat, now: nat :: k != "" && iat <= now < iat + life ==>
          j.verify(j.sign(c, k, iat, life), Some(k), now) == Some(c))
    && (forall c: Claim, k: string, iat: nat, life: nat, now: nat :: k != "" && iat + life <= now ==>
          j.verify(j.sign(c, k, iat, life), Some(k), now) == None)
    && (forall c: Claim, k: string, iat: nat, life: nat :: j.sign(c, k, iat, life) != "" && ' ' !in j.sign(c, k, iat, life))
  }

  // Witnesses that the hypotheses above can all hold at once.

  /** `n` copies of the character `ch`. */
  function Run(ch: char, n: nat): (r: string)
    ensures |r| == n && forall i :: 0 <= i < n ==> r[i] == ch
  {
    if n == 0 then [] else [ch] + Run(ch, n - 1)
  }

  lemma {:induction false} RunCount(ch: char, n: nat, d: char)
    ensures multiset(Run(ch, n))[d] == if d == ch then n else 0
  {
    if n > 0 {
      RunCount(ch, n - 1, d);
    }
  }

  /** A toy bcrypt that reads the whole password: the hash is the password behind a '$' marker. */
  function ToyHasher(): Hasher
  {
    Hasher((p, rounds, salt) => Success("$" + p), (p, hashed) => Success(hashed == "$" + p), p => p)
  }

  lemma ToyHasherIsSound()
    ensures Matches(ToyHasher()) && Separates(ToyHasher()) && HidesPlaintext(ToyHasher())
    ensures ComparesSignificant(ToyHasher())
  {
    forall p: string, rounds: nat, salt: Salt
      ensures ToyHasher().hash(p, rounds, salt).value != p
    {
      assert |"$" + p| == |p| + 1;
    }
    forall p: string, q: string, rounds: nat, salt: Salt | p != q
      ensures ToyHasher().compare(q, ToyHasher().hash(p, rounds, salt).value) == Success(false)
    {
      assert ("$" + p)[1..] == p && ("$" + q)[1..] == q;
    }
  }

  /** A toy token: the id, the issue time and the lifetime counted out in letters, then a 't'. */
  function ToyToken(id: nat, iat: nat, life: nat): string
  {
    Run('a', id) + Run('b', iat) + Run('c', life) + "t"
  }

  lemma ToyTokenCounts(id: nat, iat: nat, life: nat)
    ensures var m := multiset(ToyToken(id, iat, life)); m['a'] == id && m['b'] == iat && m['c'] == life
    ensures ToyToken(id, iat, life) != "" && ' ' !in ToyToken(id, iat, life)
  {
    RunCount('a', id, 'a'); RunCount('a', id, 'b'); RunCount('a', id, 'c');
    RunCount('b', iat, 'a'); RunCount('b', iat, 'b'); RunCount('b', iat, 'c');
    RunCount('c', life, 'a'); RunCount('c', life, 'b'); RunCount('c', life, 'c');
    var t := ToyToken(id, iat, life);
    if ' ' in t {
      var i :| 0 <= i < |t| && t[i] == ' ';
      assert t[i] in multiset(t);
      RunCount('a', id, ' '); RunCount('b', iat, ' '); RunCount('c', life, ' ');
    }
  }

  /** A toy jsonwebtoken that reads the counts back and checks the expiry. */
  function ToySigner(): Signer
  {
    Signer(
      (c: Claim, k: string, iat: nat, life: nat) => ToyToken(c.id, iat, life),
      (t: string, secret: Option<string>, now: nat) =>
        var m := multiset(t);
        if secret.None? || secret.value == "" || m['b'] + m['c'] <= now then None else Some(Claim(m['a'])))
  }

  lemma ToySignerIsSound()
    ensures Sound(ToySigner())
  {
    forall c: Claim, k: string, iat: nat, life: nat
      ensures var t := ToySigner().sign(c, k, iat, life);
              t != "" && ' ' !in t && multiset(t)['a'] == c.id && multiset(t)['b'] + multiset(t)['c'] == iat + life
    {
      ToyTokenCounts(c.id, iat, life);
    }
  }
}
