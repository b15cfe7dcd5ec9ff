/** The user schema and its save lifecycle (models/user.js): field rules and defaults,
    the pre-save hook that hashes a modified password, and the user collection the
    documents are saved into. */
module UserModel {
  import opened Wrappers
  import opened Crypto
  import opened Http

  /** The values the schema's `role` enum admits, and the default for a document without one. */
  const RoleEnum: seq<string> := ["user", "admin"]
  const DefaultRole: string := "user"

  /** A record at rest in the user collection. */
  datatype User = User(id: Id, name: string, email: string, password: Credential, role: string, isActive: bool)

  /** A user document in memory: the paths the schema declares, the identifier the store gave
      it (none until its first save), whether it has been saved, and whether `password` has
      been assigned since construction or the last successful save. */
  datatype Doc = Doc(
    id: Option<Id>,
    name: Option<string>,
    email: Option<string>,
    password: Option<Credential>,
    role: string,
    isActive: bool,
    isNew: bool,
    passwordModified: bool)

  /** The document `new User({ name, email, password, role })` builds: `role` and `isActive`
      take their defaults when absent, and a given password counts as modified. */
  function NewDoc(name: Option<string>, email: Option<string>, password: Option<Credential>, role: Option<string>): (d: Doc)
    ensures Consistent(d)
    ensures d.isNew && d.id.None? && d.password == password
  {
    Doc(None, name, email, password, role.GetOr(DefaultRole), true, true, password.Some?)
  }

  /** A record without a role gets role "user", and every new record is active. */
  lemma NewDocDefaults(name: Option<string>, email: Option<string>, password: Option<Credential>, role: Option<string>)
    ensures NewDoc(name, email, password, role).role == (if role.None? then "user" else role.value)
    ensures NewDoc(name, email, password, role).isActive
    ensures NewDoc(name, email, password, role).isNew
  {
  }

  /** A required string path is satisfied by a non-empty string only. */
  predicate Present(s: Option<string>) {
    s.Some? && s.value != ""
  }

  predicate PresentCredential(c: Option<Credential>) {
    c.Some? && c.value != Plain("")
  }

  /** The paths schema validation rejects: a missing or empty required path, or a role
      outside the enum. */
  function FailingPaths(d: Doc): (paths: set<string>)
    ensures paths <= {"name", "email", "password", "role"}
  {
    (if Present(d.name) then {} else {"name"})
    + (if Present(d.email) then {} else {"email"})
    + (if PresentCredential(d.password) then {} else {"password"})
    + (if d.role in RoleEnum then {} else {"role"})
  }

  /** Validation passes exactly when name, email and password are present and the role is
      one of the enum's values; each missing required path is reported by name. */
  lemma ValidationRules(d: Doc)
    ensures FailingPaths(d) == {} <==>
      Present(d.name) && Present(d.email) && PresentCredential(d.password) && d.role in RoleEnum
    ensures !Present(d.name) ==> "name" in FailingPaths(d)
    ensures !Present(d.email) ==> "email" in FailingPaths(d)
    ensures !PresentCredential(d.password) ==> "password" in FailingPaths(d)
    ensures d.role !in RoleEnum ==> "role" in FailingPaths(d)
  {
    if FailingPaths(d) == {} {
      assert "name" !in FailingPaths(d) && "email" !in FailingPaths(d);
      assert "password" !in FailingPaths(d) && "role" !in FailingPaths(d);
    }
  }

  /** The invariant every document keeps: a modified password is present, an unmodified one
      that is present is a hash output, and a saved document has an identifier. */
  predicate Consistent(d: Doc) {
    && (d.passwordModified ==> d.password.Some?)
    && (!d.passwordModified && d.password.Some? ==> d.password.value.Hashed?)
    && (!d.isNew ==> d.id.Some?)
  }

  /** The pre-save hook's result: the document after it ran, and the error it passed on. */
  datatype Hooked = Hooked(doc: Doc, error: Option<Fault>)

  /** The pre-save hook: skip when the password was not modified; otherwise hash it with a
      fresh salt, or abort with the hashing library's error. */
  function HookResult(d: Doc, draw: HashDraw): (r: Hooked)
    requires d.passwordModified ==> d.password.Some?
    ensures r.doc == d.(password := r.doc.password)
    ensures r.error.Some? ==> r.doc == d
    ensures r.doc.password.Some? <==> d.password.Some?
  {
    if !d.passwordModified then Hooked(d, None)
    else
      match draw
      case Faulted(reason) => Hooked(d, Some(HashFailed(reason)))
      case Salted(salt) => Hooked(d.(password := Some(Hash(d.password.value, salt))), None)
  }

  /** An unmodified password is left as it is, whatever the hashing library would do. */
  lemma HookSkipsUnmodified(d: Doc, draw: HashDraw)
    requires !d.passwordModified
    ensures HookResult(d, draw) == Hooked(d, None)
  {
  }

  /** A modified password is replaced by its hash with the fresh salt and nothing else
      changes; a hashing error aborts with that error and changes nothing. */
  lemma HookRehashesModified(d: Doc, draw: HashDraw)
    requires d.passwordModified && d.password.Some?
    ensures draw.Salted? ==>
      HookResult(d, draw) == Hooked(d.(password := Some(Hash(d.password.value, draw.salt))), None)
    ensures draw.Faulted? ==> HookResult(d, draw) == Hooked(d, Some(HashFailed(draw.reason)))
  {
  }

  /** The record a validated document is stored as. */
  function ToRecord(d: Doc, id: Id): User
    requires d.name.Some? && d.email.Some? && d.password.Some?
  {
    User(id, d.name.value, d.email.value, d.password.value, d.role, d.isActive)
  }

  /** A save's result: the document afterwards, the collection and identifier counter
      afterwards, and the fault the save raised, if any. */
  datatype Saved = Saved(doc: Doc, users: map<string, User>, nextId: Id, error: Option<Fault>)

  /** `doc.save()`: validation, then the pre-save hook, then an insert (a new document) or a
      replacement of the stored record (a saved one). A saved document is looked up under its
      email and must carry the record's identifier: no operation changes a saved document's
      email and identifiers are never reused, so this finds the same record a lookup by
      identifier would. A successful save clears the modified flag; a failed one keeps
      whatever the hook did to the document. */
  function SaveResult(d: Doc, users: map<string, User>, nextId: Id, draw: HashDraw): (s: Saved)
    requires Consistent(d)
    ensures s.nextId == nextId || s.nextId == nextId + 1
    ensures s.error.None? ==> !s.doc.isNew && !s.doc.passwordModified && s.doc.id.Some?
    ensures s.error.Some? ==> s.doc.isNew == d.isNew && s.doc.id == d.id
  {
    var failing := FailingPaths(d);
    if failing != {} then Saved(d, users, nextId, Some(ValidationFailed(failing)))
    else
      var hooked := HookResult(d, draw);
      var h := hooked.doc;
      if hooked.error.Some? then Saved(h, users, nextId, hooked.error)
      else if h.isNew then
        if h.email.value in users then Saved(h, users, nextId, Some(DuplicateKey(h.email.value)))
        else
          Saved(h.(id := Some(nextId), isNew := false, passwordModified := false),
                users[h.email.value := ToRecord(h, nextId)], nextId + 1, None)
      else if h.email.value in users && h.id == Some(users[h.email.value].id) then
        Saved(h.(passwordModified := false), users[h.email.value := ToRecord(h, h.id.value)], nextId, None)
      else Saved(h, users, nextId, Some(DocumentNotFound))
  }

  /** A stored record satisfies the schema and holds a hash output, never plain text. */
  predicate Conforms(u: User) {
    u.name != "" && u.email != "" && u.password.Hashed? && u.role in RoleEnum
  }

  /** The collection's invariant: each record sits under its own email (so no two records
      share one), conforms to the schema, and has an identifier below the counter that no
      other record has. */
  ghost predicate StoreInvariant(users: map<string, User>, nextId: Id) {
    && (forall e :: e in users ==> users[e].email == e && Conforms(users[e]) && users[e].id < nextId)
    && (forall e1, e2 :: e1 in users && e2 in users && users[e1].id == users[e2].id ==> e1 == e2)
  }

  /** No two records share an email. */
  lemma UniqueEmails(users: map<string, User>, nextId: Id, e1: string, e2: string)
    requires StoreInvariant(users, nextId)
    requires e1 in users && e2 in users && e1 != e2
    ensures users[e1].email != users[e2].email
  {
  }

  /** A failed save leaves the collection and the counter as they were. */
  lemma SaveFailureChangesNothing(d: Doc, users: map<string, User>, nextId: Id, draw: HashDraw)
    requires Consistent(d)
    requires SaveResult(d, users, nextId, draw).error.Some?
    ensures SaveResult(d, users, nextId, draw).users == users
    ensures SaveResult(d, users, nextId, draw).nextId == nextId
  {
  }

  /** A successful save changes exactly the record under the document's email. */
  lemma SaveSuccessTouchesOneRecord(d: Doc, users: map<string, User>, nextId: Id, draw: HashDraw)
    requires Consistent(d)
    requires SaveResult(d, users, nextId, draw).error.None?
    ensures d.email.Some?
    ensures SaveResult(d, users, nextId, draw).users.Keys == users.Keys + {d.email.value}
    ensures forall e :: e in users && e != d.email.value ==> SaveResult(d, users, nextId, draw).users[e] == users[e]
  {
  }

  /** Saving keeps the document consistent. */
  lemma SaveKeepsConsistent(d: Doc, users: map<string, User>, nextId: Id, draw: HashDraw)
    requires Consistent(d)
    ensures Consistent(SaveResult(d, users, nextId, draw).doc)
  {
  }

  /** Saving keeps the collection's invariant: in particular the record it writes holds a
      hash output, and emails and identifiers stay unique. */
  lemma SaveKeepsInvariant(d: Doc, users: map<string, User>, nextId: Id, draw: HashDraw)
    requires Consistent(d) && StoreInvariant(users, nextId)
    ensures StoreInvariant(SaveResult(d, users, nextId, draw).users, SaveResult(d, users, nextId, draw).nextId)
  {
    var s := SaveResult(d, users, nextId, draw);
    if s.error.None? {
      var h := HookResult(d, draw).doc;
      var e := h.email.value;
      var rec := s.users[e];
      assert rec.password.Hashed? && Conforms(rec) && rec.id < s.nextId;
      assert forall k :: k in s.users && k != e ==> s.users[k] == users[k];
      forall e1, e2 | e1 in s.users && e2 in s.users && s.users[e1].id == s.users[e2].id
        ensures e1 == e2
      {
        if e1 != e && e2 != e {
          assert users[e1].id == users[e2].id;
        }
      }
    }
  }

  /** Saving again without touching the password does not re-hash it: the second save
      succeeds and leaves the collection exactly as the first left it. */
  lemma SaveTwiceKeepsHash(d: Doc, users: map<string, User>, nextId: Id, draw1: HashDraw, draw2: HashDraw)
    requires Consistent(d)
    requires SaveResult(d, users, nextId, draw1).error.None?
    ensures
      var s1 := SaveResult(d, users, nextId, draw1);
      Consistent(s1.doc) &&
      var s2 := SaveResult(s1.doc, s1.users, s1.nextId, draw2);
      s2.error.None? && s2.users == s1.users && s2.doc.password == s1.doc.password
  {
    var s1 := SaveResult(d, users, nextId, draw1);
    var h := HookResult(d, draw1).doc;
    assert s1.users[h.email.value] == ToRecord(h, s1.doc.id.value);
    assert HookResult(s1.doc, draw2) == Hooked(s1.doc, None);
  }

  /** Assigning a new password to a saved document and saving it hashes the new password
      exactly once with the hook's salt and stores it under the same identifier. */
  lemma SaveAfterPasswordChange(d: Doc, users: map<string, User>, nextId: Id, p: Credential, salt: Salt)
    requires Consistent(d)
    requires SaveResult(d.(password := Some(p), passwordModified := true), users, nextId, Salted(salt)).error.None?
    requires !d.isNew
    ensures d.email.Some? && d.id.Some?
    ensures SaveResult(d.(password := Some(p), passwordModified := true), users, nextId, Salted(salt)).users
         == users[d.email.value := ToRecord(d.(password := Some(Hash(p, salt))), d.id.value)]
  {
  }

  /** The user collection: records keyed by email, and the counter the next identifier is
      drawn from. */
  class UserStore {
    var users: map<string, User>
    var nextId: Id

    ghost predicate Valid()
      reads this
    {
      StoreInvariant(users, nextId)
    }

    constructor ()
      ensures Valid() && users == map[] && nextId == 0
    {
      users := map[];
      nextId := 0;
    }

    /** Insert a record under a fresh identifier. */
    method Insert(name: string, email: string, password: Credential, role: string, isActive: bool) returns (id: Id)
      modifies this
      ensures id == old(nextId) && nextId == old(nextId) + 1
      ensures users == old(users)[email := User(id, name, email, password, role, isActive)]
    {
      id := nextId;
      users := users[email := User(id, name, email, password, role, isActive)];
      nextId := nextId + 1;
    }

    /** Overwrite the record stored under `u.email`. */
    method Replace(u: User)
      modifies this
      ensures users == old(users)[u.email := u] && nextId == old(nextId)
    {
      users := users[u.email := u];
    }
  }

  /** A user document: its fields are assigned in place by the hook and by saving. */
  class UserDocument {
    var id: Option<Id>
    var name: Option<string>
    var email: Option<string>
    var password: Option<Credential>
    var role: string
    var isActive: bool
    var isNew: bool
    var passwordModified: bool

    function State(): Doc
      reads this
    {
      Doc(id, name, email, password, role, isActive, isNew, passwordModified)
    }

    /** `new User({ name, email, password, role })`. */
    constructor (name: Option<string>, email: Option<string>, password: Option<Credential>, role: Option<string>)
      ensures State() == NewDoc(name, email, password, role)
    {
      id := None;
      this.name := name;
      this.email := email;
      this.password := password;
      this.role := role.GetOr(DefaultRole);
      isActive := true;
      isNew := true;
      passwordModified := password.Some?;
    }

    /** `doc.password = p`. */
    method SetPassword(p: Credential)
      modifies this
      ensures State() == old(State()).(password := Some(p), passwordModified := true)
    {
      password := Some(p);
      passwordModified := true;
    }

    /** The pre-save hook, overwriting `password` in place when it was modified. */
    method PreSave(draw: HashDraw) returns (error: Option<Fault>)
      requires passwordModified ==> password.Some?
      modifies this
      ensures Hooked(State(), error) == HookResult(old(State()), draw)
    {
      if !passwordModified {
        return None;
      }
      match draw
      case Faulted(reason) =>
        error := Some(HashFailed(reason));
      case Salted(salt) =>
        password := Some(Hash(password.value, salt));
        error := None;
    }

    /** `doc.save()` into `store`. */
    method Save(store: UserStore, draw: HashDraw) returns (error: Option<Fault>)
      requires Consistent(State())
      modifies this, store
      ensures Saved(State(), store.users, store.nextId, error)
           == SaveResult(old(State()), old(store.users), old(store.nextId), draw)
    {
      var failing := FailingPaths(State());
      if failing != {} {
        return Some(ValidationFailed(failing));
      }
      error := PreSave(draw);
      if error.Some? {
        return;
      }
      var key := email.value;
      if isNew {
        if key in store.users {
          return Some(DuplicateKey(key));
        }
        var newId := store.Insert(name.value, key, password.value, role, isActive);
        id := Some(newId);
        isNew := false;
        passwordModified := false;
      } else if key in store.users && id == Some(store.users[key].id) {
        store.Replace(ToRecord(State(), id.value));
        passwordModified := false;
      } else {
        return Some(DocumentNotFound);
      }
    }
  }
}
