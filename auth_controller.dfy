/**
 * `register` and `login` of controllers/authController.js, over the user
 * store, an abstract bcrypt (`Hasher`) and an abstract jsonwebtoken
 * (`Signer`).  `secret` is `JWT_SECRET` as read at start-up (`None` when
 * unset) and `now` the clock `jwt.sign` stamps the token with.
 */
module AuthController {
  import opened Wrappers
  import opened UserModel
  import opened Crypto
  import opened Http
  import opened UserStore

  const UserExists := Response(400, Message("User already exists"))
  const Registered := Response(201, Message("User registered successfully \U{2705}"))
  const InvalidCredentials := Response(400, Message("Invalid credentials"))
  const ConfigurationError := Response(500, Message("Server configuration error"))

  /** The catch block of both flows: 500 with the thrown error's message. */
  function ServerError(message: string): Response
  {
    Response(500, ServerFault("Server Error", message))
  }

  /**
   * `register`: refuse an email already on file, otherwise store one new
   * document holding `bcrypt.hash(password, 10)` under the drawn `salt`.
   * A store exception, a hasher exception or a failed `required` validator
   * (an empty name or email) ends in 500 and stores nothing.
   */
  method Register(store: Store, h: Hasher, salt: Salt, name: string, email: string, password: string)
    returns (r: Response)
    requires store.Valid()
    modifies store
    ensures store.Valid() && store.fault == old(store.fault)
    ensures old(store.fault).Some? ==> r == ServerError(old(store.fault).value) && store.docs == old(store.docs) && store.nextId == old(store.nextId)
    ensures old(store.fault).None? && IndexOfEmail(old(store.docs), email).Some? ==>
      r == UserExists && store.docs == old(store.docs) && store.nextId == old(store.nextId)
    ensures old(store.fault).None? && IndexOfEmail(old(store.docs), email).None? && h.hash(password, SaltRounds, salt).Failure? ==>
      r == ServerError(h.hash(password, SaltRounds, salt).error) && store.docs == old(store.docs) && store.nextId == old(store.nextId)
    ensures old(store.fault).None? && IndexOfEmail(old(store.docs), email).None? && h.hash(password, SaltRounds, salt).Success? ==>
      var missing := MissingPaths(name, email, h.hash(password, SaltRounds, salt).value);
      && (missing != [] ==> r == ServerError(ValidationMessage(missing)) && store.docs == old(store.docs) && store.nextId == old(store.nextId))
      && (missing == [] ==>
            (r == Registered &&
             store.docs == old(store.docs) + [User(old(store.nextId), name, email, h.hash(password, SaltRounds, salt).value, [])]))
    ensures r.status == 201 <==> store.docs != old(store.docs)
    ensures r.status == 201 && HidesPlaintext(h) ==> store.docs[|store.docs| - 1].password != password
  {
    if store.fault.Some? {
      return ServerError(store.fault.value);
    }
    if IndexOfEmail(store.docs, email).Some? {
      return UserExists;
    }
    var hashed := h.hash(password, SaltRounds, salt);
    if hashed.Failure? {
      return ServerError(hashed.error);
    }
    var saved := store.Create(name, email, hashed.value);
    if saved.Failure? {
      return ServerError(saved.error);
    }
    r := Registered;
  }

  /** The two credential checks, in the order the code makes them. */
  function CheckCredentials(docs: seq<User>, h: Hasher, email: string, password: string): (r: Result<Option<User>, string>)
    ensures r.Success? && r.value.Some? ==>
      IndexOfEmail(docs, email).Some? && r.value.value == docs[IndexOfEmail(docs, email).value] &&
      h.compare(password, r.value.value.password) == Success(true)
    ensures r == Success(None) <==>
      IndexOfEmail(docs, email).None? || h.compare(password, docs[IndexOfEmail(docs, email).value].password) == Success(false)
    ensures r.Failure? <==>
      IndexOfEmail(docs, email).Some? && h.compare(password, docs[IndexOfEmail(docs, email).value].password).Failure?
  {
    match IndexOfEmail(docs, email)
    case None => Success(None)
    case Some(i) =>
      match h.compare(password, docs[i].password)
      case Failure(e) => Failure(e)
      case Success(isMatch) => if isMatch then Success(Some(docs[i])) else Success(None)
  }

  /**
   * `login`: look the email up, compare the password with the stored hash,
   * and only then check that a secret is configured; on success sign
   * `{ id }` for two hours and return it with the public profile.
   */
  function Login(docs: seq<User>, fault: Option<string>, h: Hasher, j: Signer, secret: Option<string>, now: nat,
                 email: string, password: string): (r: Response)
    ensures r.status in {200, 400, 500}
    ensures r.status == 400 <==> r == InvalidCredentials
    ensures r.status == 200 ==> (r.body.Session? &&
      exists i :: 0 <= i < |docs| && docs[i].email == email && r.body.profile == Profile(docs[i].id, docs[i].name, email))
  {
    if fault.Some? then ServerError(fault.value)
    else match CheckCredentials(docs, h, email, password)
      case Failure(e) => ServerError(e)
      case Success(None) => InvalidCredentials
      case Success(Some(user)) =>
        if secret.None? || secret.value == "" then ConfigurationError
        else
          var token := j.sign(Claim(user.id), secret.value, now, TokenLifetime);
          Response(200, Session(token, Profile(user.id, user.name, user.email)))
  }

  /** A store exception or a bcrypt exception while comparing ends in 500 with the thrown message. */
  lemma LoginServerErrors(docs: seq<User>, fault: Option<string>, h: Hasher, j: Signer, secret: Option<string>, now: nat,
                          email: string, password: string)
    ensures fault.Some? ==> Login(docs, fault, h, j, secret, now, email, password) == ServerError(fault.value)
    ensures fault.None? && IndexOfEmail(docs, email).Some? &&
            h.compare(password, docs[IndexOfEmail(docs, email).value].password).Failure? ==>
      Login(docs, fault, h, j, secret, now, email, password) ==
        ServerError(h.compare(password, docs[IndexOfEmail(docs, email).value].password).error)
  {
  }

  /** An unknown email and a wrong password for a known one get byte-identical answers. */
  lemma LoginHidesWhichCheckFailed(docs: seq<User>, h: Hasher, j: Signer, secret: Option<string>, now: nat,
                                   unknown: string, pw1: string, known: string, pw2: string)
    requires IndexOfEmail(docs, unknown).None?
    requires IndexOfEmail(docs, known).Some? && h.compare(pw2, docs[IndexOfEmail(docs, known).value].password) == Success(false)
    ensures Login(docs, None, h, j, secret, now, unknown, pw1) == Login(docs, None, h, j, secret, now, known, pw2)
    ensures Login(docs, None, h, j, secret, now, unknown, pw1) == InvalidCredentials
  {
  }

  /** The secret is checked only after both credential checks: bad credentials are 400 whatever the configuration. */
  lemma SecretCheckedLast(docs: seq<User>, h: Hasher, j: Signer, now: nat, email: string, password: string)
    requires CheckCredentials(docs, h, email, password) == Success(None)
    ensures Login(docs, None, h, j, None, now, email, password) == InvalidCredentials
    ensures forall k :: Login(docs, None, h, j, Some(k), now, email, password) == InvalidCredentials
  {
  }

  /** Valid credentials without a configured secret are a 500 configuration error, never a token. */
  lemma NoSecretNoToken(docs: seq<User>, h: Hasher, j: Signer, secret: Option<string>, now: nat, email: string, password: string)
    requires CheckCredentials(docs, h, email, password).Success?
    requires CheckCredentials(docs, h, email, password).value.Some?
    requires secret.None? || secret == Some("")
    ensures Login(docs, None, h, j, secret, now, email, password) == ConfigurationError
  {
  }

  /**
   * A successful login answers with a token that opens, under the same
   * secret, to `{ id }` of the user that owns the email for the next two
   * hours and not afterwards; the profile carries id, name and email.
   */
  lemma LoginIssuesTwoHourToken(docs: seq<User>, h: Hasher, j: Signer, secret: Option<string>, now: nat,
                                email: string, password: string, later: nat)
    requires Sound(j)
    requires Login(docs, None, h, j, secret, now, email, password).status == 200
    ensures secret.Some? && secret.value != ""
    ensures IndexOfEmail(docs, email).Some?
    ensures var u := docs[IndexOfEmail(docs, email).value];
            var r := Login(docs, None, h, j, secret, now, email, password);
            && r.body.profile == Profile(u.id, u.name, u.email)
            && (now <= later < now + TokenLifetime ==> j.verify(r.body.token, secret, later) == Some(Claim(u.id)))
            && (now + TokenLifetime <= later ==> j.verify(r.body.token, secret, later) == None)
  {
  }

  /** A fresh registration can log in with the password it registered with. */
  lemma LoginAfterRegister(docs: seq<User>, h: Hasher, j: Signer, k: string, now: nat, salt: Salt, u: User, password: string)
    requires Matches(h)
    requires IndexOfEmail(docs, u.email).None?
    requires h.hash(password, SaltRounds, salt) == Success(u.password)
    requires k != ""
    ensures Login(docs + [u], None, h, j, Some(k), now, u.email, password) ==
      Response(200, Session(j.sign(Claim(u.id), k, now, TokenLifetime), Profile(u.id, u.name, u.email)))
  {
    IndexOfEmailAppend(docs, u);
    assert (docs + [u])[|docs|] == u;
  }

  /** ... and with no password that differs from it in the part bcrypt reads. */
  lemma OtherPasswordAfterRegister(docs: seq<User>, h: Hasher, j: Signer, secret: Option<string>, now: nat, salt: Salt,
                                   u: User, password: string, other: string)
    requires Separates(h)
    requires IndexOfEmail(docs, u.email).None?
    requires h.hash(password, SaltRounds, salt) == Success(u.password)
    requires h.significant(other) != h.significant(password)
    ensures Login(docs + [u], None, h, j, secret, now, u.email, other) == InvalidCredentials
  {
    IndexOfEmailAppend(docs, u);
    assert (docs + [u])[|docs|] == u;
  }

  /**
   * A password that agrees with the registered one in the part bcrypt reads
   * logs in as that user, although it is a different string.
   */
  lemma SamePrefixAfterRegister(docs: seq<User>, h: Hasher, j: Signer, k: string, now: nat, salt: Salt,
                                u: User, password: string, other: string)
    requires ComparesSignificant(h)
    requires IndexOfEmail(docs, u.email).None?
    requires h.hash(password, SaltRounds, salt) == Success(u.password)
    requires h.significant(other) == h.significant(password)
    requires k != ""
    ensures Login(docs + [u], None, h, j, Some(k), now, u.email, other) ==
      Response(200, Session(j.sign(Claim(u.id), k, now, TokenLifetime), Profile(u.id, u.name, u.email)))
  {
    IndexOfEmailAppend(docs, u);
    assert (docs + [u])[|docs|] == u;
  }

  /** Credentials the two checks accept, with a configured secret, give 200 and a session token for that user. */
  lemma LoginSucceeds(docs: seq<User>, h: Hasher, j: Signer, k: string, now: nat, email: string, password: string, u: User)
    requires CheckCredentials(docs, h, email, password) == Success(Some(u))
    requires k != ""
    ensures u in docs && u.email == email
    ensures Login(docs, None, h, j, Some(k), now, email, password) ==
      Response(200, Session(j.sign(Claim(u.id), k, now, TokenLifetime), Profile(u.id, u.name, u.email)))
  {
  }
}
