/** The user collection. The User schema itself (backend/models/User.js) is not part of this
    model; the collection is taken to hold a name, an email, a password and a role per user,
    with a unique index on the email. */
module UserModel {
  import opened Wrappers
  import opened Db

  datatype User = User(id: Id, name: string, email: string, password: string, role: string)

  /** A user as the handlers show it: `select('-password')`, or the hand-built object of
      the login reply. It has no password field. */
  datatype PublicUser = PublicUser(id: Id, name: string, email: string, role: string)

  function Public(u: User): (p: PublicUser)
    ensures p.id == u.id && p.name == u.name && p.email == u.email && p.role == u.role
  {
    PublicUser(u.id, u.name, u.email, u.role)
  }

  /** The unique index on email. */
  predicate EmailsUnique(users: map<Id, User>) {
    forall i, j :: i in users && j in users && users[i].email == users[j].email ==> i == j
  }

  /** Users are stored under their own ids, all drawn below `n`, and emails are unique. */
  predicate Consistent(users: map<Id, User>, n: nat) {
    (forall i :: i in users ==> users[i].id == i && i < n) && EmailsUnique(users)
  }

  /** Adding a user with a fresh id and an unused email keeps the collection consistent. */
  lemma InsertKeepsConsistent(users: map<Id, User>, n: nat, u: User)
    requires Consistent(users, n) && u.id == n
    requires forall i :: i in users ==> users[i].email != u.email
    ensures n !in users && Consistent(users[n := u], n + 1)
  {
    var after := users[n := u];
    forall i, j | i in after && j in after && after[i].email == after[j].email
      ensures i == j
    {
      if i != n && j != n {
        assert users[i].email == users[j].email;
      }
    }
  }

  /** `User.findOne({ email })` */
  function FindByEmail(users: map<Id, User>, n: nat, email: string): (r: Option<Id>)
    requires Consistent(users, n)
    ensures r.Some? <==> exists i :: i in users && users[i].email == email
    ensures r.Some? ==> r.value in users && users[r.value].email == email
  {
    FindOne(users, (u: User) => u.email == email, n)
  }

  /** `findById(id)`: the id of a stored user is the key it is stored under. */
  function FindById(users: map<Id, User>, id: Id): (r: Option<User>)
    ensures r.Some? <==> id in users
    ensures r.Some? ==> r.value == users[id]
  {
    if id in users then Some(users[id]) else None
  }

  /** The update document of `findByIdAndUpdate`: Mongoose drops keys whose value is
      `undefined` (None), so those fields keep their value; updates run no validators. */
  datatype UserPatch = UserPatch(name: Option<string>, email: Option<string>, role: Option<string>)

  function Patched(u: User, p: UserPatch): (r: User)
    ensures r.id == u.id && r.password == u.password
    ensures r.name == p.name.GetOr(u.name) && r.email == p.email.GetOr(u.email) && r.role == p.role.GetOr(u.role)
  {
    User(u.id, p.name.GetOr(u.name), p.email.GetOr(u.email), u.password, p.role.GetOr(u.role))
  }

  datatype UpdateResult = NoSuchUser | DuplicateEmail | Updated(user: User)

  /** The user collection. */
  class UserStore {
    var users: map<Id, User>
    var nextId: Id

    ghost predicate Valid()
      reads this
    {
      Consistent(users, nextId)
    }

    constructor ()
      ensures Valid() && users == map[]
    {
      users := map[];
      nextId := 0;
    }

    /** `new User(fields).save()`: the unique index rejects a taken email (an E11000 error,
        None here); otherwise the user is stored under a fresh id. */
    method Insert(name: string, email: string, password: string, role: string) returns (r: Option<User>)
      requires Valid()
      modifies this
      ensures Valid()
      ensures r.None? <==> exists i :: i in old(users) && old(users)[i].email == email
      ensures r.None? ==> users == old(users) && nextId == old(nextId)
      ensures r.Some? ==> && r.value == User(old(nextId), name, email, password, role)
                          && users == old(users)[r.value.id := r.value] && nextId == old(nextId) + 1
    {
      var taken := FindByEmail(users, nextId, email);
      if taken.Some? {
        return None;
      }
      var u := User(nextId, name, email, password, role);
      InsertKeepsConsistent(users, nextId, u);
      users := users[nextId := u];
      nextId := nextId + 1;
      r := Some(u);
    }

    /** `findByIdAndUpdate(id, patch, { new: true })`: the updated user; null for an unknown
        id; an E11000 error when the new email belongs to another user. */
    method UpdateById(id: Id, p: UserPatch) returns (r: UpdateResult)
      requires Valid()
      modifies this
      ensures Valid() && nextId == old(nextId)
      ensures r.NoSuchUser? <==> id !in old(users)
      ensures r.DuplicateEmail? <==> id in old(users) && p.email.Some?
                                     && exists j :: j in old(users) && j != id && old(users)[j].email == p.email.value
      ensures r.Updated? ==> r.user == Patched(old(users)[id], p) && users == old(users)[id := r.user]
      ensures !r.Updated? ==> users == old(users)
    {
      if id !in users {
        return NoSuchUser;
      }
      if p.email.Some? && exists j :: j in users && j != id && users[j].email == p.email.value {
        return DuplicateEmail;
      }
      var u := Patched(users[id], p);
      users := users[id := u];
      r := Updated(u);
    }

    /** `findByIdAndDelete(id)`: the removed user, or null. */
    method DeleteById(id: Id) returns (r: Option<User>)
      requires Valid()
      modifies this
      ensures Valid() && nextId == old(nextId)
      ensures r.Some? <==> id in old(users)
      ensures r.Some? ==> r.value == old(users)[id] && users == old(users) - {id}
      ensures r.None? ==> users == old(users)
    {
      if id in users {
        r := Some(users[id]);
        users := users - {id};
      } else {
        r := None;
      }
    }
  }
}
