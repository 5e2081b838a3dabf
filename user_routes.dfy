/**
 * The handlers of routes/user.js, each run behind `verifyToken` with the
 * decoded claim as `req.user`, and the dispatch that puts the gate in front
 * of them.  A `null` document dereferenced by a handler throws a TypeError,
 * which the handler's catch block turns into 500 "Server error".
 */
module UserRoutes {
  import opened Wrappers
  import opened UserModel
  import opened Crypto
  import opened Skills
  import opened Http
  import opened UserStore
  import opened AuthMiddleware

  const ServerError := Response(500, Message("Server error"))
  const UserNotFound := Response(404, Message("User not found"))
  const SkillRequired := Response(400, Message("Skill is required"))

  /** GET /profile: the caller's own document without its password, 404 when it is gone. */
  function GetProfile(docs: seq<User>, fault: Option<string>, user: Claim): (r: Response)
    ensures r.status in {200, 404, 500}
    ensures fault.Some? ==> r == ServerError
    ensures r.status == 404 <==> fault.None? && forall i :: 0 <= i < |docs| ==> docs[i].id != user.id
    ensures r.status == 404 ==> r == UserNotFound
    ensures r.status == 200 ==> (r.body.UserBody? &&
      exists i :: 0 <= i < |docs| && docs[i].id == user.id && r.body.doc == Public(docs[i]))
  {
    if fault.Some? then ServerError
    else match IndexOfId(docs, user.id)
      case None => UserNotFound
      case Some(i) => Response(200, UserBody(Public(docs[i])))
  }

  /** Under unique ids the profile is exactly the public view of the caller's document. */
  lemma ProfileIsOwnRecord(docs: seq<User>, user: Claim, i: nat)
    requires UniqueIds(docs) && i < |docs| && docs[i].id == user.id
    ensures GetProfile(docs, None, user) == Response(200, UserBody(Public(docs[i])))
  {
    IndexOfIdUnique(docs, i);
  }

  /** What a handler that writes answers, and the documents it leaves behind. */
  datatype Outcome = Outcome(response: Response, docs: seq<User>)

  /**
   * The outcome of PUT /profile: an empty name or a store fault is 500 with
   * the documents as they were; otherwise 200, with the caller's document
   * (if any) carrying the new name and skills.
   */
  function UpdateProfileOutcome(docs: seq<User>, fault: Option<string>, user: Claim, name: string, skills: seq<string>): (o: Outcome)
    ensures o.response.status in {200, 500}
    ensures o.response.status == 500 <==> fault.Some? || name == ""
    ensures o.response.status == 500 ==> o == Outcome(ServerError, docs)
    ensures o.response.status == 200 && (forall k :: 0 <= k < |docs| ==> docs[k].id != user.id) ==>
      o == Outcome(Response(200, ProfileUpdated("Profile updated", None)), docs)
    ensures o.response.status == 200 && (exists k :: 0 <= k < |docs| && docs[k].id == user.id) ==>
      exists i :: 0 <= i < |docs| && docs[i].id == user.id &&
        o.docs == docs[i := docs[i].(name := name, skills := skills)] &&
        o.response == Response(200, ProfileUpdated("Profile updated", Some(Public(o.docs[i]))))
  {
    if fault.Some? || name == "" then Outcome(ServerError, docs)
    else match IndexOfId(docs, user.id)
      case None => Outcome(Response(200, ProfileUpdated("Profile updated", None)), docs)
      case Some(i) =>
        var updated := docs[i := docs[i].(name := name, skills := skills)];
        Outcome(Response(200, ProfileUpdated("Profile updated", Some(Public(updated[i])))), updated)
  }

  /**
   * The outcome of POST /skills: a missing or empty skill is 400 and a store
   * fault or vanished document 500, each with the documents as they were;
   * otherwise 200 with the caller's list extended by `WithSkill`.
   */
  function AddSkillOutcome(docs: seq<User>, fault: Option<string>, user: Claim, skill: Option<string>): (o: Outcome)
    ensures o.response.status in {200, 400, 500}
    ensures o.response.status == 400 <==> skill.None? || skill == Some("")
    ensures o.response.status == 400 ==> o == Outcome(SkillRequired, docs)
    ensures o.response.status == 500 ==> o == Outcome(ServerError, docs)
    ensures o.response.status == 200 <==>
      skill.Some? && skill.value != "" && fault.None? && exists k :: 0 <= k < |docs| && docs[k].id == user.id
    ensures o.response.status == 200 ==>
      exists i :: 0 <= i < |docs| && docs[i].id == user.id &&
        o.docs == docs[i := docs[i].(skills := WithSkill(docs[i].skills, skill.value))] &&
        o.response == Response(200, SkillsChanged("Skill added", o.docs[i].skills))
  {
    if skill.None? || skill.value == "" then Outcome(SkillRequired, docs)
    else if fault.Some? then Outcome(ServerError, docs)
    else match IndexOfId(docs, user.id)
      case None => Outcome(ServerError, docs)
      case Some(i) =>
        var updated := docs[i := docs[i].(skills := WithSkill(docs[i].skills, skill.value))];
        Outcome(Response(200, SkillsChanged("Skill added", updated[i].skills)), updated)
  }

  /**
   * The outcome of DELETE /skills/:skillName: a store fault or vanished
   * document is 500 with the documents as they were; otherwise 200 with the
   * skill filtered out of the caller's list.
   */
  function RemoveSkillOutcome(docs: seq<User>, fault: Option<string>, user: Claim, skillName: string): (o: Outcome)
    ensures o.response.status in {200, 500}
    ensures o.response.status == 500 ==> o == Outcome(ServerError, docs)
    ensures o.response.status == 200 <==> fault.None? && exists k :: 0 <= k < |docs| && docs[k].id == user.id
    ensures o.response.status == 200 ==>
      exists i :: 0 <= i < |docs| && docs[i].id == user.id &&
        o.docs == docs[i := docs[i].(skills := Without(docs[i].skills, skillName))] &&
        o.response == Response(200, SkillsChanged("Skill removed", o.docs[i].skills))
  {
    if fault.Some? then Outcome(ServerError, docs)
    else match IndexOfId(docs, user.id)
      case None => Outcome(ServerError, docs)
      case Some(i) =>
        var updated := docs[i := docs[i].(skills := Without(docs[i].skills, skillName))];
        Outcome(Response(200, SkillsChanged("Skill removed", updated[i].skills)), updated)
  }

  /**
   * PUT /profile: `findByIdAndUpdate(id, { name, skills }, { new: true,
   * runValidators: true })`.  The `required` validator on `name` rejects an
   * empty name (500); otherwise both fields of the caller's document only are
   * replaced, as given (no de-duplication), and the answer is the updated
   * document, or `null` when there is none.
   */
  method UpdateProfile(store: Store, user: Claim, name: string, skills: seq<string>) returns (r: Response)
    requires store.Valid()
    modifies store`docs
    ensures store.Valid()
    ensures Outcome(r, store.docs) == UpdateProfileOutcome(old(store.docs), store.fault, user, name, skills)
    ensures old(store.fault).Some? || name == "" ==> r == ServerError && store.docs == old(store.docs)
    ensures old(store.fault).None? && name != "" && IndexOfId(old(store.docs), user.id).None? ==>
      r == Response(200, ProfileUpdated("Profile updated", None)) && store.docs == old(store.docs)
    ensures old(store.fault).None? && name != "" && IndexOfId(old(store.docs), user.id).Some? ==>
      var i := IndexOfId(old(store.docs), user.id).value;
      && store.docs == old(store.docs)[i := old(store.docs)[i].(name := name, skills := skills)]
      && r == Response(200, ProfileUpdated("Profile updated", Some(Public(store.docs[i]))))
  {
    if store.fault.Some? || name == "" {
      return ServerError;
    }
    match IndexOfId(store.docs, user.id)
    case None =>
      r := Response(200, ProfileUpdated("Profile updated", None));
    case Some(i) =>
      var updated := store.docs[i].(name := name, skills := skills);
      store.Put(i, updated);
      r := Response(200, ProfileUpdated("Profile updated", Some(Public(updated))));
  }

  /**
   * POST /skills: a missing or empty skill is 400 before the store is asked;
   * otherwise the skill is appended to the caller's list unless already
   * there.  A vanished document is dereferenced and ends in 500.
   */
  method AddSkill(store: Store, user: Claim, skill: Option<string>) returns (r: Response)
    requires store.Valid()
    modifies store`docs
    ensures store.Valid()
    ensures Outcome(r, store.docs) == AddSkillOutcome(old(store.docs), store.fault, user, skill)
    ensures skill.None? || skill == Some("") ==> r == SkillRequired && store.docs == old(store.docs)
    ensures skill.Some? && skill.value != "" && (old(store.fault).Some? || IndexOfId(old(store.docs), user.id).None?) ==>
      r == ServerError && store.docs == old(store.docs)
    ensures skill.Some? && skill.value != "" && old(store.fault).None? && IndexOfId(old(store.docs), user.id).Some? ==>
      var i := IndexOfId(old(store.docs), user.id).value;
      && store.docs == old(store.docs)[i := old(store.docs)[i].(skills := WithSkill(old(store.docs)[i].skills, skill.value))]
      && r == Response(200, SkillsChanged("Skill added", store.docs[i].skills))
  {
    if skill.None? || skill.value == "" {
      return SkillRequired;
    }
    if store.fault.Some? {
      return ServerError;
    }
    match IndexOfId(store.docs, user.id)
    case None =>
      r := ServerError;
    case Some(i) =>
      var doc := store.docs[i];
      if skill.value !in doc.skills {
        store.Put(i, doc.(skills := doc.skills + [skill.value]));
      }
      r := Response(200, SkillsChanged("Skill added", store.docs[i].skills));
  }

  /**
   * DELETE /skills/:skillName: every occurrence of the name is filtered out
   * of the caller's list and the document saved.  A vanished document ends
   * in 500.
   */
  method RemoveSkill(store: Store, user: Claim, skillName: string) returns (r: Response)
    requires store.Valid()
    modifies store`docs
    ensures store.Valid()
    ensures Outcome(r, store.docs) == RemoveSkillOutcome(old(store.docs), store.fault, user, skillName)
    ensures old(store.fault).Some? || IndexOfId(old(store.docs), user.id).None? ==>
      r == ServerError && store.docs == old(store.docs)
    ensures old(store.fault).None? && IndexOfId(old(store.docs), user.id).Some? ==>
      var i := IndexOfId(old(store.docs), user.id).value;
      && store.docs == old(store.docs)[i := old(store.docs)[i].(skills := Without(old(store.docs)[i].skills, skillName))]
      && r == Response(200, SkillsChanged("Skill removed", store.docs[i].skills))
  {
    if store.fault.Some? {
      return ServerError;
    }
    match IndexOfId(store.docs, user.id)
    case None =>
      r := ServerError;
    case Some(i) =>
      var doc := store.docs[i];
      store.Put(i, doc.(skills := Without(doc.skills, skillName)));
      r := Response(200, SkillsChanged("Skill removed", store.docs[i].skills));
  }

  /** GET /skills: the caller's list; a vanished document ends in 500, not 404. */
  function ListSkills(docs: seq<User>, fault: Option<string>, user: Claim): (r: Response)
    ensures r.status in {200, 500}
    ensures r.status == 200 <==> fault.None? && exists i :: 0 <= i < |docs| && docs[i].id == user.id
    ensures r.status == 500 ==> r == ServerError
    ensures r.status == 200 ==> (r.body.SkillsBody? &&
      exists i :: 0 <= i < |docs| && docs[i].id == user.id && r.body.skills == docs[i].skills)
  {
    if fault.Some? then ServerError
    else match IndexOfId(docs, user.id)
      case None => ServerError
      case Some(i) => Response(200, SkillsBody(docs[i].skills))
  }

  /** GET /all: every document in natural order, each without its password. */
  function ListUsers(docs: seq<User>, fault: Option<string>): (r: Response)
    ensures r.status in {200, 500}
    ensures r.status == 200 <==> fault.None?
    ensures r.status == 500 ==> r == ServerError
    ensures r.status == 200 ==> (r.body.UsersBody? && |r.body.users| == |docs| &&
      forall i :: 0 <= i < |docs| ==> r.body.users[i] == Public(docs[i]))
  {
    if fault.Some? then ServerError else Response(200, UsersBody(PublicAll(docs)))
  }

  /**
   * GET /skills/stats with the dictionary built as a plain mapping from
   * skill names: the corrected handler.  The routes themselves run the code
   * as written, `GetSkillStatsAsWritten`.
   */
  method GetSkillStats(docs: seq<User>, fault: Option<string>) returns (r: Response)
    ensures fault.Some? ==> r == ServerError
    ensures fault.None? ==> (r.status == 200 && r.body.StatsBody? &&
      r.body.skillStats.Keys == SkillsOf(docs) &&
      forall s :: s in r.body.skillStats ==>
        r.body.skillStats[s].count == Count(docs, s) > 0 &&
        r.body.skillStats[s].users == Holders(docs, s) &&
        |r.body.skillStats[s].users| == r.body.skillStats[s].count)
  {
    if fault.Some? {
      return ServerError;
    }
    var stats := ComputeSkillStats(docs);
    forall s | s in stats
      ensures Count(docs, s) > 0 && |Holders(docs, s)| == Count(docs, s)
    {
      CountPositive(docs, s);
      HoldersLength(docs, s);
    }
    r := Response(200, StatsBody(stats));
  }

  /**
   * GET /skills/stats as written: the statistics are built in a plain `{}`,
   * and a skill named after an inherited member makes the loop throw, which
   * the catch block turns into 500.
   */
  method GetSkillStatsAsWritten(docs: seq<User>, fault: Option<string>) returns (r: Response)
    ensures r.status == 200 <==> fault.None? && SkillsOf(docs) !! InheritedKeys
    ensures r.status == 200 ==> r == Response(200, StatsBody(SkillStats(docs)))
    ensures r.status != 200 ==> r == ServerError
  {
    if fault.Some? {
      return ServerError;
    }
    var built := ComputeSkillStatsAsWritten(docs);
    if built.Failure? {
      return ServerError;
    }
    r := Response(200, StatsBody(built.value));
  }

  /** The statistics of one user "A" with skills "Go" and "toString", as a plain mapping counts them. */
  lemma StatsOfExample(users: seq<User>)
    requires users == [User(0, "A", "a@x.com", "hash", ["Go", "toString"])]
    ensures "toString" in SkillsOf(users)
    ensures SkillStats(users) == map["Go" := SkillStat(1, ["A"]), "toString" := SkillStat(1, ["A"])]
  {
    SkillsOfExactly(users, "toString");
    assert "toString" in users[0].skills;
    assert users[..0] == [];
    assert Elements(users[0].skills) == {"Go", "toString"};
    assert SkillsOf(users) == {"Go", "toString"};
    var skills := users[0].skills;
    assert skills[..1] == ["Go"];
    assert skills[..0] == [];
    assert Occurrences(skills, "Go") == 1;
    assert Occurrences(skills, "toString") == 1;
    assert Repeat("A", 1) == ["A"];
    assert Count(users, "Go") == 1 && Holders(users, "Go") == ["A"];
    assert Count(users, "toString") == 1 && Holders(users, "toString") == ["A"];
  }

  /** One user with the skill "toString" breaks the statistics for everyone, where the corrected handler counts it. */
  method InheritedSkillNameBreaksStats() returns (asWritten: Response, corrected: Response)
    ensures asWritten == ServerError
    ensures corrected == Response(200, StatsBody(map["Go" := SkillStat(1, ["A"]), "toString" := SkillStat(1, ["A"])]))
  {
    var users := [User(0, "A", "a@x.com", "hash", ["Go", "toString"])];
    StatsOfExample(users);
    asWritten := GetSkillStatsAsWritten(users, None);
    corrected := GetSkillStats(users, None);
    assert corrected.body.skillStats == SkillStats(users);
  }

  /** The requests behind the gate. */
  datatype Request =
    | GetProfileRequest
    | PutProfile(name: string, skills: seq<string>)
    | PostSkill(skill: Option<string>)
    | DeleteSkill(skillName: string)
    | GetSkills
    | GetAllUsers
    | GetStats

  predicate ReadOnly(req: Request)
  {
    req.GetProfileRequest? || req.GetSkills? || req.GetAllUsers? || req.GetStats?
  }

  /** Only documents holding the caller's id may differ between `before` and `after`. */
  ghost predicate OnlyCallerChanged(before: seq<User>, after: seq<User>, id: Id)
  {
    && |after| == |before|
    && forall k :: 0 <= k < |before| && before[k].id != id ==> after[k] == before[k]
  }

  /** The handler of a request that passed the gate, run for `caller`. */
  method Handle(store: Store, caller: Claim, req: Request) returns (r: Response)
    requires store.Valid()
    modifies store`docs
    ensures store.Valid()
    ensures r.status != 401
    ensures ReadOnly(req) ==> store.docs == old(store.docs)
    ensures OnlyCallerChanged(old(store.docs), store.docs, caller.id)
    ensures req.GetProfileRequest? ==> r == GetProfile(old(store.docs), store.fault, caller)
    ensures req.GetSkills? ==> r == ListSkills(old(store.docs), store.fault, caller)
    ensures req.GetAllUsers? ==> r == ListUsers(old(store.docs), store.fault)
    ensures req.GetStats? ==>
      && (r.status == 200 <==> store.fault.None? && SkillsOf(old(store.docs)) !! InheritedKeys)
      && (r.status == 200 ==> r == Response(200, StatsBody(SkillStats(old(store.docs)))))
      && (r.status != 200 ==> r == ServerError)
    ensures req.PostSkill? ==>
      Outcome(r, store.docs) == AddSkillOutcome(old(store.docs), store.fault, caller, req.skill)
    ensures req.DeleteSkill? ==>
      Outcome(r, store.docs) == RemoveSkillOutcome(old(store.docs), store.fault, caller, req.skillName)
    ensures req.PutProfile? ==>
      Outcome(r, store.docs) == UpdateProfileOutcome(old(store.docs), store.fault, caller, req.name, req.skills)
  {
    match req
    case GetProfileRequest => r := GetProfile(store.docs, store.fault, caller);
    case PutProfile(name, skills) => r := UpdateProfile(store, caller, name, skills);
    case PostSkill(skill) => r := AddSkill(store, caller, skill);
    case DeleteSkill(skillName) => r := RemoveSkill(store, caller, skillName);
    case GetSkills => r := ListSkills(store.docs, store.fault, caller);
    case GetAllUsers => r := ListUsers(store.docs, store.fault);
    case GetStats => r := GetSkillStatsAsWritten(store.docs, store.fault);
  }

  /**
   * `router.<verb>(path, verifyToken, handler)`: the gate runs first; a
   * rejection is the answer and no handler runs, otherwise the handler runs
   * with the decoded claim as the caller and touches only the caller's
   * document.
   */
  method Serve(store: Store, j: Signer, secret: Option<string>, now: nat, authorization: Option<string>, req: Request)
    returns (r: Response)
    requires store.Valid()
    modifies store`docs
    ensures store.Valid()
    ensures VerifyToken(authorization, j, secret, now).Reject? ==>
      r == VerifyToken(authorization, j, secret, now).response && store.docs == old(store.docs)
    ensures r.status == 401 <==> VerifyToken(authorization, j, secret, now).Reject?
    ensures ReadOnly(req) ==> store.docs == old(store.docs)
    ensures VerifyToken(authorization, j, secret, now).Next? ==>
      var caller := VerifyToken(authorization, j, secret, now).user;
      && OnlyCallerChanged(old(store.docs), store.docs, caller.id)
      && (req.GetProfileRequest? ==> r == GetProfile(old(store.docs), store.fault, caller))
      && (req.GetSkills? ==> r == ListSkills(old(store.docs), store.fault, caller))
      && (req.GetAllUsers? ==> r == ListUsers(old(store.docs), store.fault))
      && (req.GetStats? ==>
            && (r.status == 200 <==> store.fault.None? && SkillsOf(old(store.docs)) !! InheritedKeys)
            && (r.status == 200 ==> r == Response(200, StatsBody(SkillStats(old(store.docs)))))
            && (r.status != 200 ==> r == ServerError))
      && (req.PostSkill? ==>
            Outcome(r, store.docs) == AddSkillOutcome(old(store.docs), store.fault, caller, req.skill))
      && (req.DeleteSkill? ==>
            Outcome(r, store.docs) == RemoveSkillOutcome(old(store.docs), store.fault, caller, req.skillName))
      && (req.PutProfile? ==>
            Outcome(r, store.docs) == UpdateProfileOutcome(old(store.docs), store.fault, caller, req.name, req.skills))
  {
    match VerifyToken(authorization, j, secret, now)
    case Reject(response) =>
      r := response;
    case Next(user) =>
      r := Handle(store, user, req);
  }
}
