/** The three pieces together: a token that login issues is what the gate lets through. */
module EndToEnd {
  import opened Wrappers
  import opened UserModel
  import opened Crypto
  import opened Http
  import opened UserStore
  import opened AuthMiddleware
  import opened AuthController
  import opened UserRoutes

  /**
   * Presented as "Bearer <token>", the token of a successful login makes the
   * gate attach `{ id }` of the user who logged in for two hours, after which
   * the gate answers "Invalid token".
   */
  lemma LoginTokenOpensGate(docs: seq<User>, h: Hasher, j: Signer, secret: Option<string>, now: nat,
                            email: string, password: string, later: nat)
    requires Sound(j)
    requires Login(docs, None, h, j, secret, now, email, password).status == 200
    ensures var token := Login(docs, None, h, j, secret, now, email, password).body.token;
            var u := docs[IndexOfEmail(docs, email).value];
            && (now <= later < now + TokenLifetime ==>
                  VerifyToken(Some("Bearer " + token), j, secret, later) == Next(Claim(u.id)))
            && (now + TokenLifetime <= later ==>
                  VerifyToken(Some("Bearer " + token), j, secret, later) == Reject(InvalidToken))
  {
    LoginIssuesTwoHourToken(docs, h, j, secret, now, email, password, later);
    var token := Login(docs, None, h, j, secret, now, email, password).body.token;
    var u := docs[IndexOfEmail(docs, email).value];
    assert token == j.sign(Claim(u.id), secret.value, now, TokenLifetime);
    VerifierDecides("Bearer", token, "", j, secret, later);
    assert "Bearer" + " " + token + "" == "Bearer " + token;
  }

  /**
   * Register A, log in, read the profile with the token and without it, and
   * add the skill "Go" twice.
   */
  method Scenario(h: Hasher, j: Signer, k: string, salt: Salt, now: nat)
    requires Matches(h) && Sound(j) && k != ""
    requires h.hash("secret123", SaltRounds, salt).Success? && h.hash("secret123", SaltRounds, salt).value != ""
  {
    var store := new Store(None);
    var registered := Register(store, h, salt, "A", "a@x.com", "secret123");
    assert registered == Registered;
    var u := store.docs[0];

    var login := Login(store.docs, store.fault, h, j, Some(k), now, "a@x.com", "secret123");
    LoginAfterRegister([], h, j, k, now, salt, u, "secret123");
    assert [] + [u] == store.docs;
    assert login.status == 200 && login.body.profile == Profile(u.id, "A", "a@x.com");

    var header := Some("Bearer " + login.body.token);
    LoginTokenOpensGate(store.docs, h, j, Some(k), now, "a@x.com", "secret123", now);
    var gate := VerifyToken(header, j, Some(k), now);
    assert gate == Next(Claim(u.id));
    var profile := GetProfile(store.docs, store.fault, gate.user);
    ProfileIsOwnRecord(store.docs, gate.user, 0);
    assert profile == Response(200, UserBody(PublicUser(u.id, "A", "a@x.com", [])));

    var anonymous := Serve(store, j, Some(k), now, None, GetProfileRequest);
    assert anonymous == NoTokenProvided;
  }

  /** A freshly registered user adds the skill "Go" twice; the list holds it once. */
  method SkillScenario(h: Hasher, salt: Salt)
    requires h.hash("secret123", SaltRounds, salt).Success? && h.hash("secret123", SaltRounds, salt).value != ""
  {
    var store := new Store(None);
    var registered := Register(store, h, salt, "A", "a@x.com", "secret123");
    var id := store.docs[0].id;
    var once := AddSkill(store, Claim(id), Some("Go"));
    var twice := AddSkill(store, Claim(id), Some("Go"));
    assert twice == Response(200, SkillsChanged("Skill added", ["Go"]));
  }
}
