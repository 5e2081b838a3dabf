/**
 * The user document of models/User.js: a name, an email that is unique in
 * the collection, the stored password hash and a list of skills.  Ids stand
 * for Mongo's ObjectId; the `timestamps` fields are not modelled.
 */
module UserModel {
  import opened Wrappers

  type Id = nat

  datatype User = User(id: Id, name: string, email: string, password: string, skills: seq<string>)

  /** A document as `select('-password')` returns it: everything but the hash. */
  datatype PublicUser = PublicUser(id: Id, name: string, email: string, skills: seq<string>)

  function Public(u: User): PublicUser
  {
    PublicUser(u.id, u.name, u.email, u.skills)
  }

  /** The projection `select('-password')` applied to a whole result list, in order. */
  function PublicAll(docs: seq<User>): (r: seq<PublicUser>)
    ensures |r| == |docs|
    ensures forall i :: 0 <= i < |docs| ==> r[i] == Public(docs[i])
  {
    if docs == [] then [] else [Public(docs[0])] + PublicAll(docs[1..])
  }

  /** Two documents look the same once the password is stripped exactly when they differ at most in the password. */
  lemma PublicForgetsOnlyPassword(u: User, v: User)
    ensures Public(u) == Public(v) <==> u == v.(password := u.password)
  {
  }

  /** The paths whose `required: true` validator fails, in schema order. */
  function MissingPaths(name: string, email: string, password: string): (paths: seq<string>)
    ensures paths == [] <==> name != "" && email != "" && password != ""
  {
    (if name == "" then ["name"] else []) + (if email == "" then ["email"] else []) + (if password == "" then ["password"] else [])
  }

  /** The message of the `ValidationError` that `save()` throws, one entry per failing path. */
  function ValidationMessage(paths: seq<string>): string
  {
    "User validation failed: " + PathErrors(paths)
  }

  function PathErrors(paths: seq<string>): string
  {
    if paths == [] then ""
    else
      var entry := paths[0] + ": Path `" + paths[0] + "` is required.";
      if |paths| == 1 then entry else entry + ", " + PathErrors(paths[1..])
  }

  /** Every stored document passed the schema's `required` validators. */
  ghost predicate RequiredPresent(docs: seq<User>)
  {
    forall i :: 0 <= i < |docs| ==> MissingPaths(docs[i].name, docs[i].email, docs[i].password) == []
  }

  ghost predicate UniqueIds(docs: seq<User>)
  {
    forall i, j :: 0 <= i < j < |docs| ==> docs[i].id != docs[j].id
  }

  /** The `unique: true` index on `email`. */
  ghost predicate UniqueEmails(docs: seq<User>)
  {
    forall i, j :: 0 <= i < j < |docs| ==> docs[i].email != docs[j].email
  }

  /** `findById(id)`: the position of the document with that id, in natural order. */
  function IndexOfId(docs: seq<User>, id: Id): (r: Option<nat>)
    ensures r.Some? ==> r.value < |docs| && docs[r.value].id == id
    ensures r.Some? ==> forall j :: 0 <= j < r.value ==> docs[j].id != id
    ensures r.None? <==> forall j :: 0 <= j < |docs| ==> docs[j].id != id
  {
    if docs == [] then None
    else if docs[0].id == id then Some(0)
    else match IndexOfId(docs[1..], id)
      case None => None
      case Some(k) => Some(k + 1)
  }

  /** `findOne({ email })`: the first document whose email equals `email` exactly. */
  function IndexOfEmail(docs: seq<User>, email: string): (r: Option<nat>)
    ensures r.Some? ==> r.value < |docs| && docs[r.value].email == email
    ensures r.Some? ==> forall j :: 0 <= j < r.value ==> docs[j].email != email
    ensures r.None? <==> forall j :: 0 <= j < |docs| ==> docs[j].email != email
  {
    if docs == [] then None
    else if docs[0].email == email then Some(0)
    else match IndexOfEmail(docs[1..], email)
      case None => None
      case Some(k) => Some(k + 1)
  }

  /** Under unique ids the id lookup finds the one document holding that id, wherever it is. */
  lemma IndexOfIdUnique(docs: seq<User>, i: nat)
    requires UniqueIds(docs) && i < |docs|
    ensures IndexOfId(docs, docs[i].id) == Some(i)
  {
  }

  /** Appending a document with a new email makes it the one `findOne` answers for that email. */
  lemma IndexOfEmailAppend(docs: seq<User>, u: User)
    requires IndexOfEmail(docs, u.email).None?
    ensures IndexOfEmail(docs + [u], u.email) == Some(|docs|)
  {
    assert (docs + [u])[|docs|] == u;
  }
}
