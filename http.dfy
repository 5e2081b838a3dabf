/** Responses as `(status, body)` values; each body constructor is one JSON shape the handlers send. */
module Http {
  import opened Wrappers
  import opened UserModel
  import opened Skills

  /** The `user` object of a login response: id, name and email, nothing else. */
  datatype Profile = Profile(id: Id, name: string, email: string)

  datatype Body =
    | Message(msg: string)                                // { msg }
    | ServerFault(msg: string, error: string)             // { msg, error: err.message }
    | UserBody(doc: PublicUser)                           // the document itself
    | ProfileUpdated(msg: string, updated: Option<PublicUser>)  // { msg, user }, user may be null
    | SkillsChanged(msg: string, skills: seq<string>)     // { msg, skills }
    | SkillsBody(skills: seq<string>)                     // { skills }
    | UsersBody(users: seq<PublicUser>)                   // { users }
    | StatsBody(skillStats: map<string, SkillStat>)       // { skillStats }
    | Session(token: string, profile: Profile)            // { token, user }

  datatype Response = Response(status: nat, body: Body)
}
