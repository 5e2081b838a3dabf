# SkillSync backend: authentication gate, register/login and skill routes

This project models the decision logic of the SkillSync backend in Dafny:

- the request gate `verifyToken` (middleware/authMiddleware.js), which reads the
  `Authorization` header, takes its second space-separated segment as the
  token, and either passes the decoded claim on as `req.user` or answers 401;
- the `register` and `login` flows (controllers/authController.js) over the
  user store, bcrypt and jsonwebtoken;
- the user routes (routes/user.js): profile read and update, adding, removing
  and listing skills, listing all users, and the skill statistics;
- the user document of models/User.js, with email uniqueness as the store
  invariant.

Responses are `(status, body)` values (`Http.Response`); each body constructor
is one JSON shape the handlers send, so a body that has no password field
cannot carry one. The users collection is the class `UserStore.Store`: its
documents in natural (insertion) order, a source of fresh ids and the
database's availability (`fault`: when it holds a message, every query throws
that message). Handlers that change documents are methods on the store. Read-only
handlers and `login` take the documents as a value and have no `modifies`
clause, so by construction they change nothing: most are functions, and the
two statistics handlers are methods because the code builds the statistics in
a loop. The statistics loop is a method proved against the specification
function `Skills.SkillStats`. The routes (`UserRoutes.Serve`) run the
statistics code as written, `UserRoutes.GetSkillStatsAsWritten`; the corrected
handler `UserRoutes.GetSkillStats` belongs to the finding below.

bcrypt and jsonwebtoken are values of function type (`Crypto.Hasher`,
`Crypto.Signer`) passed in by the caller. What the flows rely on from them
(a hash matches its own password, and no password that differs from it in
the part bcrypt reads, `Hasher.significant`; a hash is never the plaintext;
a token opens under its secret to the claim it was signed with for its
lifetime; a compact token has no spaces) is stated by the predicates
`Crypto.Matches`, `Crypto.Separates`, `Crypto.HidesPlaintext` and
`Crypto.Sound`. `Crypto.ComparesSignificant` states the other side of bcrypt's
truncation: a password agreeing with the hashed one in the significant part
matches it. The lemmas that need these properties take them as hypotheses.
`Crypto.ToyHasher` and `Crypto.ToySigner` are small functions that satisfy
all these predicates (`Crypto.ToyHasherIsSound`, `Crypto.ToySignerIsSound`),
so the hypotheses can hold together and the lemmas that assume them apply.

Behaviour of the code that the model keeps:

- The three rejections of the gate share status 401 but carry three
  different messages ("Unauthorized: No token provided", "Unauthorized: Token
  missing", "Unauthorized: Invalid token"), so a caller can tell which check
  failed.
- The schema's `required` validators reject an empty name, email or password
  when a document is saved, and `runValidators` applies the same check to the
  name in a profile update. Both failures reach the catch blocks and answer 500.
- Adding, removing or listing skills for a document that has vanished
  dereferences `null` and ends in 500 "Server error". Reading the profile in
  the same situation answers 404. Updating the profile answers 200 with
  `user: null`.
- The error bodies differ in case: the controller answers
  "Server Error" with the error message, the routes answer "Server error" without it.

`EndToEnd.Scenario` and `EndToEnd.SkillScenario` are clients of the
contracts. The first registers a user, logs in, and reads the profile with the
token and without it; the second registers a user who adds the skill "Go"
twice, after which the list holds "Go" once.

## Model

| member | source | states |
|---|---|---|
| UserModel.PublicAll | routes/user.js:79 | `select('-password')` on a result list keeps its length and order, and position i is the public view of document i |
| UserModel.PublicForgetsOnlyPassword | models/User.js:3-8 | two documents have the same password-free view exactly when they differ at most in the password |
| UserModel.MissingPaths | models/User.js:4-6 | the `required` validators find nothing to report exactly when name, email and password are all non-empty |
| UserModel.IndexOfId | routes/user.js:9 | `findById` finds a document with that id and none earlier, and finds nothing exactly when no document has the id |
| UserModel.IndexOfEmail | controllers/authController.js:12 | `findOne({ email })` finds the first document whose email matches exactly, and finds nothing exactly when no email matches |
| UserModel.IndexOfIdUnique | models/User.js:3-8 | when ids are unique, the id lookup finds the one document that has that id |
| UserModel.IndexOfEmailAppend | controllers/authController.js:12-18 | once a document with a new email is saved, looking up that email finds it |
| UserStore.Store.constructor | models/User.js:3-10 | an empty collection satisfies the store invariant (unique ids and emails) |
| UserStore.Store.Create | controllers/authController.js:17-18 | saving a new user with an empty name, email or password fails with the validation message and leaves the documents and the id counter unchanged; otherwise it appends exactly one document with no skills under a fresh id and keeps ids and emails unique |
| UserStore.Store.Put | routes/user.js:41-42 | saving a changed document replaces it at its position and changes nothing else |
| Skills.WithSkill | routes/user.js:40-43 | after adding, the skill is listed, every earlier entry keeps its place, and at most the new skill was added |
| Skills.WithSkillPlacement | routes/user.js:40-43 | adding a skill that is already listed changes nothing; adding a new one appends it at the end |
| Skills.WithSkillIdempotent | routes/user.js:40-43 | adding the same skill twice gives the list that adding it once gives |
| Skills.WithSkillKeepsNoDuplicates | routes/user.js:40-43 | adding a skill keeps a duplicate-free list duplicate-free |
| Skills.Without | routes/user.js:57 | after removal no element equals the skill, and only elements already present remain |
| Skills.WithoutAppend | routes/user.js:57 | removal works on each part of a concatenation and keeps the parts in order, so the other entries keep their relative order |
| Skills.WithoutAbsent | routes/user.js:57 | removing a skill that is not listed changes nothing |
| Skills.WithoutIdempotent | routes/user.js:57 | removing the same skill twice gives the list that removing it once gives |
| Skills.WithoutMultiset | routes/user.js:57 | every other skill keeps all its occurrences, and the removed skill has none left |
| Skills.SkillsOfExactly | routes/user.js:92-96 | a skill is a key of the statistics exactly when some user's list contains it |
| Skills.CountPositive | routes/user.js:94-97 | a skill's count is positive exactly when the skill is a key |
| Skills.HoldersLength | routes/user.js:97-98 | each `users` list is exactly as long as its `count` |
| Skills.HoldersHaveSkill | routes/user.js:92-98 | every name in a skill's `users` list belongs to a user whose list contains that skill |
| Skills.ComputeSkillStats | routes/user.js:90-100 | the nested loops give each skill the total count of its occurrences, and the names of its holders in iteration order, once per occurrence |
| Skills.VisitSkill | routes/user.js:93-98 | one visit on a plain object fails exactly when the skill has no own entry and is an inherited member name; otherwise the entry, created if missing, gains one count and the user's name |
| Skills.ComputeSkillStatsAsWritten | routes/user.js:90-100 | the same loops over a plain object whose lookup falls back to `Object.prototype`: they throw exactly when some skill is an inherited member name, and otherwise give the same statistics as `SkillStats` |
| AuthMiddleware.Split | middleware/authMiddleware.js:8 | `split(' ')` gives at least one segment, and no segment contains a space |
| AuthMiddleware.JoinSplit | middleware/authMiddleware.js:8 | joining the segments with the separator gives back the header |
| AuthMiddleware.SplitJoin | middleware/authMiddleware.js:8 | space-free segments joined with spaces split back into the same segments |
| AuthMiddleware.VerifyToken | middleware/authMiddleware.js:3-19 | every rejection is 401; "No token provided" exactly when the header is absent or empty, "Token missing" exactly when it is present but its second segment is absent or empty, "Invalid token" exactly when that segment is non-empty and the verifier rejects it, and it passes exactly when the verifier decodes it, with `req.user` the decoded claim |
| AuthMiddleware.BearerSegmentOf | middleware/authMiddleware.js:8 | the token is the text after the first space, up to the next space or the end of the header |
| AuthMiddleware.SchemeIgnored | middleware/authMiddleware.js:8 | the first segment is never looked at: any two schemes give the same decision |
| AuthMiddleware.TokenMissingExactly | middleware/authMiddleware.js:8-10 | the second segment is missing or empty exactly when the header has no space, or its first space is followed by another space or ends the header |
| AuthMiddleware.RejectedBeforeVerifying | middleware/authMiddleware.js:6-10 | an absent or empty header gives "No token provided"; "Bearer", "Bearer " and "Bearer  x" give "Token missing" |
| AuthMiddleware.VerifierDecides | middleware/authMiddleware.js:8-17 | for a header "scheme token rest" with a non-empty token and any further space-led segments, a verifier failure gives "Invalid token", and a decoded claim is passed on unchanged as `req.user` |
| AuthMiddleware.TokenMissingDecision | middleware/authMiddleware.js:8-10 | a non-empty header gets "Token missing" exactly when it has no space, or its first space is followed by another space or ends the header |
| AuthController.Register | controllers/authController.js:8-25 | store error is 500 with its message; a taken email is 400 "User already exists"; a hasher error is 500; an empty name, email or hash is 500 with the validation message. In these cases the documents and the id counter are unchanged. Otherwise 201 and exactly one new document holding the hash, which is never the plaintext under `HidesPlaintext`; 201 exactly when the store changed |
| AuthController.CheckCredentials | controllers/authController.js:31-39 | an accepted user is the document found under the email and bcrypt confirmed its password; no user is found exactly when the email is unknown or bcrypt answered false; an error exactly when bcrypt threw |
| AuthController.Login | controllers/authController.js:27-60 | only 200, 400 or 500; every 400 is the single body "Invalid credentials"; a 200 carries a session whose profile is the id, name and email of a user holding that email |
| AuthController.LoginServerErrors | controllers/authController.js:56-59 | a store exception, or a bcrypt exception while comparing, gives 500 with the thrown message |
| AuthController.LoginHidesWhichCheckFailed | controllers/authController.js:32-39 | an unknown email and a wrong password for a known email get identical responses |
| AuthController.SecretCheckedLast | controllers/authController.js:31-44 | bad credentials give 400 whether or not a secret is configured |
| AuthController.NoSecretNoToken | controllers/authController.js:41-44 | valid credentials with an unset or empty secret give 500 "Server configuration error" |
| AuthController.LoginIssuesTwoHourToken | controllers/authController.js:46-55 | a successful login's token opens to `{ id }` of the email's owner for two hours and not after; the profile is that user's id, name and email |
| AuthController.LoginAfterRegister | controllers/authController.js:15-18 | a freshly registered user logs in with the registered password and receives a token for its id |
| AuthController.OtherPasswordAfterRegister | controllers/authController.js:36-39 | a freshly registered user cannot log in with a password that differs from the registered one in the part bcrypt reads |
| AuthController.SamePrefixAfterRegister | controllers/authController.js:36-55 | a different password that agrees with the registered one in the part bcrypt reads logs in as that user and receives a token for its id |
| AuthController.LoginSucceeds | controllers/authController.js:31-55 | for any user on file, credentials the two checks accept with a configured secret give 200 with a token signed for that user's id and the user's profile |
| UserRoutes.GetProfile | routes/user.js:7-15 | a store fault gives 500 "Server error"; with a working store, 404 "User not found" exactly when no document has the caller's id; a 200 carries the password-free view of the caller's document |
| UserRoutes.ProfileIsOwnRecord | routes/user.js:9-11 | when ids are unique, the profile is exactly the public view of the caller's document |
| UserRoutes.UpdateProfileOutcome | routes/user.js:18-31 | the answer and the documents PUT /profile leaves: 500 exactly on a store fault or an empty name, with the documents as they were; otherwise 200, `user: null` with nothing changed when the caller's document is gone, else only that document changed to the new name and skills and returned without its password |
| UserRoutes.AddSkillOutcome | routes/user.js:34-49 | the answer and the documents POST /skills leaves: 400 "Skill is required" exactly for a missing or empty skill and 500 on a fault or vanished document, each with the documents as they were; otherwise 200 with only the caller's list changed, to `WithSkill` of the old one, and returned |
| UserRoutes.RemoveSkillOutcome | routes/user.js:52-64 | the answer and the documents DELETE /skills/:skillName leaves: 500 on a fault or vanished document with the documents as they were; otherwise 200 with only the caller's list changed, to `Without` of the old one, and returned |
| UserRoutes.UpdateProfile | routes/user.js:18-31 | an empty name fails the `required` validator and gives 500 with nothing changed; its answer and new documents are `UpdateProfileOutcome`; otherwise replaces name and skills, as given, of the caller's document only; every other document is unchanged; a missing document gives 200 with `user: null` |
| UserRoutes.AddSkill | routes/user.js:34-49 | a missing or empty skill gives 400 before the store is asked; a vanished document gives 500; otherwise the list becomes `WithSkill` of the old one, returned with "Skill added"; its answer and new documents are `AddSkillOutcome` |
| UserRoutes.RemoveSkill | routes/user.js:52-64 | a vanished document gives 500; otherwise the list becomes `Without` of the old one, returned with "Skill removed"; its answer and new documents are `RemoveSkillOutcome` |
| UserRoutes.ListSkills | routes/user.js:67-74 | 200 exactly when the store works and the caller's document exists, with that document's list; otherwise 500 "Server error", so a vanished document gives 500, not 404 |
| UserRoutes.ListUsers | routes/user.js:77-84 | 200 exactly when the store works, otherwise 500 "Server error"; a 200 carries every document in natural order, each without its password |
| UserRoutes.GetSkillStats | routes/user.js:87-106 | keys are exactly the skills that occur; each count is the number of occurrences, is positive, and equals the length of the users list of holder names |
| UserRoutes.GetSkillStatsAsWritten | routes/user.js:87-106 | as written, the response is 200 exactly when the store works and no skill is a name inherited from `Object.prototype`, and then it carries `SkillStats`; otherwise 500 |
| UserRoutes.StatsOfExample | routes/user.js:92-98 | one user "A" with skills "Go" and "toString" has statistics with both skills at count 1 held by ["A"] |
| UserRoutes.InheritedSkillNameBreaksStats | routes/user.js:94-98 | for that user the code as written answers 500, while the corrected handler answers 200 counting both skills |
| UserRoutes.Handle | routes/user.js:7-106 | a handler never answers 401 and changes only the caller's document; read-only handlers change nothing and answer as the handler functions do for the caller; statistics are 200 with `SkillStats` exactly when the store works and no skill is an inherited member name, and 500 otherwise; POST /skills, DELETE /skills/:skillName and PUT /profile give exactly the answer and the documents of `AddSkillOutcome`, `RemoveSkillOutcome` and `UpdateProfileOutcome` for the caller, so a rejected write changes nothing |
| UserRoutes.Serve | routes/user.js:7-106 | the gate runs first: a rejection is the response, with status 401, and no document changes; only the gate answers 401; read-only routes change nothing; a request that passes runs its handler for the decoded claim: read-only answers are the handlers' answers for that caller, statistics as the code is written (500 when a skill is an inherited member name), and the writing routes give exactly the answer and the documents of their outcome functions, so a rejected write changes nothing and only the caller's document may change |
| EndToEnd.LoginTokenOpensGate | middleware/authMiddleware.js:8-15 | "Bearer " plus a login token passes the gate with `{ id }` of the user who logged in for two hours, and is "Invalid token" afterwards |

## Left out

- Express routing, the `req`/`res` objects and JSON serialisation: transport plumbing. Responses are `(status, body)` values.
- Mongoose I/O, `async`/`await`, `select` field lists other than the password, the `timestamps` fields and `__v`: the store is a sequential in-memory collection.
- Store exceptions are modelled as one availability flag checked at the first query of a handler. A failure of a later `save` is not modelled separately.
- The internals of bcrypt (salting, the cost factor's work, constant-time comparison) and of jsonwebtoken (encoding, signature, exact clock arithmetic, the `iat`/`exp` fields of the decoded payload). They are abstract functions. Their properties are hypotheses of the lemmas. The random salt is a parameter.
- Tamper resistance of tokens: the `Signer` abstraction says nothing about tokens it did not sign.
- What jsonwebtoken does with an absent or empty secret depends on its version: before version 9 it accepted unsigned `alg: none` tokens in that case, and the gate passes no `algorithms` option. `Crypto.Sound` therefore assumes nothing about verifying without a secret.
- AuthController.OtherPasswordAfterRegister: bcryptjs reads only the first 72 bytes of a password's UTF-8 encoding. The lemma promises rejection only for passwords that differ within that part. `Hasher.significant` stands for the part abstractly, because strings here are sequences of characters, not UTF-8 bytes.
- Reading `process.env.JWT_SECRET`: one `secret` value is passed to both the controller and the gate. The controller reads the variable once at load time, the gate on every request. If the environment changes between the two reads, the model does not capture it.
- `console.error` logging: I/O.
- Request bodies with missing or non-string fields (`name`, `email`, `password` or `skills` undefined or of another JSON type). `skill` is modelled only as absent or a string.
- UserRoutes.UpdateProfile: does not model Mongoose dropping undefined fields from the update: both fields are always replaced.
- Validation of the `unique` index on email and of element types in `skills` is not modelled; registration checks the email first, so the store invariant keeps emails unique.
- Malformed ids (a `CastError` from `findById`) are not modelled: ids are natural numbers.
- Token revocation or refresh: the code has none.

## Findings

| source | as written | input that shows it | evidently intended | confidence | as-written member | corrected member |
|---|---|---|---|---|---|---|
| routes/user.js:90-98 | `skillStats` is a plain `{}`, so `skillStats[skill]` is already truthy for names inherited from `Object.prototype`. No entry is created, and `skillStats[skill].users.push` throws a TypeError. | one user whose skills are `["Go", "toString"]` (or `"constructor"`, `"__proto__"`, ...): the whole statistics request answers 500, and `"__proto__"` also sets `Object.prototype.count` | every skill name counted like any other (a `Map` or `Object.create(null)`) | high, not executed | UserRoutes.GetSkillStatsAsWritten | UserRoutes.GetSkillStats |
