/** The user administration and profile handlers (backend/controllers/userController.js).
    Reads project away the password; writes go to the user collection. */
module UserController {
  import opened Wrappers
  import opened Db
  import opened Http
  import opened UserModel

  const UserNotFound := "User not found"
  const EmailTaken := "A user with this email already exists"

  /** The message of the duplicate-key error the unique email index raises (the rest of the
      driver's wording is abstracted). */
  const DuplicateKey := "E11000 duplicate key error"

  /** `getAllUsers`: every user, in natural order, without passwords. */
  function GetAllUsers(users: map<Id, User>, n: nat): (r: Reply<seq<PublicUser>>)
    requires Consistent(users, n)
    ensures r.code == 200 && r.body.Envelope? && r.body.data.Some?
    ensures var d := r.body.data.value;
            && (forall k :: 0 <= k < |d| ==> d[k].id in users && d[k] == Public(users[d[k].id]))
            && (forall i :: i in users ==> exists k :: 0 <= k < |d| && d[k].id == i)
            && (forall a, b :: 0 <= a < b < |d| ==> d[a].id < d[b].id)
  {
    var ids := Find(users, (u: User) => true, n);
    assert forall i :: i in users ==> i in ids;
    Succeeded(200, "Users retrieved successfully", PublicAll(users, ids))
  }

  /** `select('-password')` over the users found, in the order found. */
  function PublicAll(users: map<Id, User>, ids: seq<Id>): (d: seq<PublicUser>)
    requires forall k :: 0 <= k < |ids| ==> ids[k] in users && users[ids[k]].id == ids[k]
    ensures |d| == |ids|
    ensures forall k :: 0 <= k < |d| ==> d[k].id == ids[k] && d[k] == Public(users[ids[k]])
  {
    seq(|ids|, k requires 0 <= k < |ids| => Public(users[ids[k]]))
  }

  /** `getUserById` */
  function GetUserById(users: map<Id, User>, id: Id): (r: Reply<PublicUser>)
    ensures r.code == 404 <==> id !in users
    ensures id !in users ==> r == Refused(404, UserNotFound)
    ensures id in users ==> && r.code == 200 && r.body.Envelope? && r.body.status == Success
                            && r.body.message == Some("User retrieved successfully")
                            && r.body.data == Some(Public(users[id]))
  {
    if id !in users then Refused(404, UserNotFound)
    else Succeeded(200, "User retrieved successfully", Public(users[id]))
  }

  /** `getLoggedInUser`: the profile of `req.user.id`, which may name a user deleted since
      the token was issued. */
  function GetLoggedInUser(users: map<Id, User>, caller: Id): (r: Reply<PublicUser>)
    ensures caller !in users ==> r == Refused(404, UserNotFound)
    ensures caller in users ==> r.code == 200 && r.body.Envelope? && r.body.data == Some(Public(users[caller]))
  {
    GetUserById(users, caller)
  }

  /** `createUser`: like `register`, but the password is stored exactly as given. */
  method CreateUser(store: UserStore, name: string, email: string, password: string, role: string) returns (reply: Reply<()>)
    requires store.Valid()
    modifies store
    ensures store.Valid()
    ensures (exists i :: i in old(store.users) && old(store.users)[i].email == email) ==>
              reply == Refused(400, EmailTaken) && store.users == old(store.users) && store.nextId == old(store.nextId)
    ensures (forall i :: i in old(store.users) ==> old(store.users)[i].email != email) ==>
              && reply == Done(201, "User created successfully")
              && store.users == old(store.users)[old(store.nextId) := User(old(store.nextId), name, email, password, role)]
  {
    var existing := FindByEmail(store.users, store.nextId, email);
    if existing.Some? {
      return Refused(400, EmailTaken);
    }
    var _ := store.Insert(name, email, password, role);
    reply := Done(201, "User created successfully");
  }

  /** The reply to a `findByIdAndUpdate` of the user handlers. */
  function UpdateReply(r: UpdateResult): Reply<PublicUser> {
    match r
    case NoSuchUser => Refused(404, UserNotFound)
    case DuplicateEmail => Reply(500, Bare(DuplicateKey))
    case Updated(u) => Reply(200, UserEnvelope(Success, Some("User updated successfully"), Public(u)))
  }

  /** A user handler's reply and the user collection it leaves behind. */
  datatype Edited = Edited(reply: Reply<PublicUser>, users: map<Id, User>)

  /** Whether another user than `id` already has the email the patch sets. */
  predicate EmailClash(users: map<Id, User>, id: Id, p: UserPatch) {
    p.email.Some? && exists j :: j in users && j != id && users[j].email == p.email.value
  }

  /** `findByIdAndUpdate(id, patch, { new: true })` and its reply: 404 for an unknown id; the
      unique email index refuses a taken email (the catch-all 500 with the bare error);
      otherwise exactly that user is patched and returned without password. */
  function Edit(users: map<Id, User>, id: Id, p: UserPatch): (c: Edited)
    ensures c.reply.code == 404 <==> id !in users
    ensures c.reply.code == 500 <==> id in users && EmailClash(users, id, p)
    ensures c.reply.code != 200 ==> c.users == users
    ensures c.reply.code == 404 ==> c.reply == Refused(404, UserNotFound)
    ensures c.reply.code == 500 ==> c.reply == Reply(500, Bare(DuplicateKey))
    ensures c.reply.code == 200 <==> id in users && !EmailClash(users, id, p)
    ensures c.reply.code == 200 ==>
              && c.users.Keys == users.Keys
              && c.users[id] == Patched(users[id], p)
              && (forall j :: j in users && j != id ==> c.users[j] == users[j])
              && c.reply == Reply(200, UserEnvelope(Success, Some("User updated successfully"), Public(c.users[id])))
  {
    if id !in users then Edited(UpdateReply(NoSuchUser), users)
    else if EmailClash(users, id, p) then Edited(UpdateReply(DuplicateEmail), users)
    else
      var u := Patched(users[id], p);
      Edited(UpdateReply(Updated(u)), users[id := u])
  }

  /** Every edit keeps the collection consistent: emails stay unique. */
  lemma {:induction false} EditKeepsConsistent(users: map<Id, User>, n: nat, id: Id, p: UserPatch)
    requires Consistent(users, n)
    ensures Consistent(Edit(users, id, p).users, n)
  {
    var c := Edit(users, id, p);
    if c.reply.code == 200 {
      var after := c.users;
      assert !EmailClash(users, id, p);
      assert forall j :: j in users && j != id ==> users[j].email != after[id].email;
      forall i, j | i in after && j in after && after[i].email == after[j].email
        ensures i == j
      {
        assert i != id && j != id ==> users[i].email == users[j].email;
      }
    }
  }

  /** A self-edit names no role, so the caller's role never changes. */
  lemma SelfEditKeepsRole(users: map<Id, User>, caller: Id, name: Option<string>, email: Option<string>)
    requires caller in users
    ensures var c := Edit(users, caller, UserPatch(name, email, None));
            caller in c.users && c.users[caller].role == users[caller].role
  {
  }

  /** `updateUser`: name, email and role, each only when present in the body. */
  method UpdateUser(store: UserStore, id: Id, name: Option<string>, email: Option<string>, role: Option<string>) returns (reply: Reply<PublicUser>)
    requires store.Valid()
    modifies store
    ensures store.Valid()
    ensures Edited(reply, store.users) == Edit(old(store.users), id, UserPatch(name, email, role))
  {
    var r := store.UpdateById(id, UserPatch(name, email, role));
    reply := UpdateReply(r);
  }

  /** `updateLoggedInUser`: name and email only; the role can never change this way. */
  method UpdateLoggedInUser(store: UserStore, caller: Id, name: Option<string>, email: Option<string>) returns (reply: Reply<PublicUser>)
    requires store.Valid()
    modifies store
    ensures store.Valid()
    ensures Edited(reply, store.users) == Edit(old(store.users), caller, UserPatch(name, email, None))
  {
    var r := store.UpdateById(caller, UserPatch(name, email, None));
    reply := UpdateReply(r);
  }

  /** `deleteUser`, and `deleteLoggedInUser` with the caller's id: removes exactly that user. */
  method DeleteUser(store: UserStore, id: Id) returns (reply: Reply<()>)
    requires store.Valid()
    modifies store
    ensures store.Valid()
    ensures id !in old(store.users) ==> reply == Refused(404, UserNotFound) && store.users == old(store.users)
    ensures id in old(store.users) ==> reply == Done(200, "User deleted successfully") && store.users == old(store.users) - {id}
  {
    var r := store.DeleteById(id);
    reply := if r.Some? then Done(200, "User deleted successfully") else Refused(404, UserNotFound);
  }

  /** `deleteLoggedInUser` */
  method DeleteLoggedInUser(store: UserStore, caller: Id) returns (reply: Reply<()>)
    requires store.Valid()
    modifies store
    ensures store.Valid()
    ensures caller !in old(store.users) ==> reply == Refused(404, UserNotFound) && store.users == old(store.users)
    ensures caller in old(store.users) ==> reply == Done(200, "User deleted successfully") && store.users == old(store.users) - {caller}
  {
    reply := DeleteUser(store, caller);
  }
}
