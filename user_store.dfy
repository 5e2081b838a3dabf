/**
 * The users collection as the handlers see it through Mongoose: documents
 * in natural (insertion) order, a source of fresh ids, and the database's
 * availability.  When `fault` holds a message the database is unreachable
 * and every query throws an error with that message.
 */
module UserStore {
  import opened Wrappers
  import opened UserModel

  class Store {
    var docs: seq<User>
    var nextId: Id
    var fault: Option<string>

    /** Ids and emails are unique, required fields are present, and every id handed out is below `nextId`. */
    ghost predicate Valid()
      reads this
    {
      && RequiredPresent(docs)
      && UniqueIds(docs)
      && UniqueEmails(docs)
      && forall i :: 0 <= i < |docs| ==> docs[i].id < nextId
    }

    constructor (fault: Option<string>)
      ensures Valid() && docs == [] && this.fault == fault
    {
      docs := [];
      nextId := 0;
      this.fault := fault;
    }

    /**
     * `new User({ name, email, password }).save()`: the `required` validators
     * run first and throw on an empty field; otherwise a new document with no
     * skills is stored under a fresh id.
     */
    method Create(name: string, email: string, password: string) returns (r: Result<Id, string>)
      requires Valid() && IndexOfEmail(docs, email).None?
      modifies this
      ensures Valid() && fault == old(fault)
      ensures MissingPaths(name, email, password) != [] ==>
        r == Failure(ValidationMessage(MissingPaths(name, email, password))) && docs == old(docs) && nextId == old(nextId)
      ensures MissingPaths(name, email, password) == [] ==>
        && r == Success(old(nextId)) && IndexOfId(old(docs), old(nextId)).None?
        && docs == old(docs) + [User(old(nextId), name, email, password, [])]
    {
      var missing := MissingPaths(name, email, password);
      if missing != [] {
        return Failure(ValidationMessage(missing));
      }
      var id := nextId;
      AppendKeepsInvariant(docs, nextId, User(id, name, email, password, []));
      docs := docs + [User(id, name, email, password, [])];
      nextId := nextId + 1;
      r := Success(id);
    }

    /** `save()` of the document at position `i` after its name or skills were changed. */
    method Put(i: nat, u: User)
      requires Valid() && i < |docs| && u.id == docs[i].id && u.email == docs[i].email && u.password == docs[i].password
      requires u.name != ""
      modifies this`docs
      ensures Valid()
      ensures docs == old(docs)[i := u]
    {
      docs := docs[i := u];
    }
  }

  /** Appending a complete document with a fresh id and a new email keeps the store invariant. */
  lemma AppendKeepsInvariant(docs: seq<User>, nextId: Id, u: User)
    requires RequiredPresent(docs) && UniqueIds(docs) && UniqueEmails(docs)
    requires forall i :: 0 <= i < |docs| ==> docs[i].id < nextId
    requires u.id == nextId && MissingPaths(u.name, u.email, u.password) == [] && IndexOfEmail(docs, u.email).None?
    ensures IndexOfId(docs, nextId).None?
    ensures RequiredPresent(docs + [u]) && UniqueIds(docs + [u]) && UniqueEmails(docs + [u])
    ensures forall i :: 0 <= i < |docs + [u]| ==> (docs + [u])[i].id < nextId + 1
  {
    var all := docs + [u];
    assert forall i :: 0 <= i < |docs| ==> all[i] == docs[i];
    assert all[|docs|] == u;
  }
}
