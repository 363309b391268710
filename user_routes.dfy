/** The handlers of `server/routes/users.js`: the profile update with its
    username-uniqueness check, and the admin-only listing, chat-block toggle and
    delete. */
module UserRoutes {
  import opened Wrappers
  import opened Models
  import opened Uploads

  /** Some account other than `id` already uses `name`. */
  predicate TakenByOther(users: map<Id, Account>, name: string, id: Id) {
    exists v | v in users :: users[v].username == name && v != id
  }

  /** The `$set` the profile handler builds: the username only when it is
      non-empty, the picture only when a file was stored; nothing else. */
  function ApplyProfile(a: Account, username: Option<string>, picture: Option<string>): (r: Account)
    ensures r.username == (if Truthy(username) then username.value else a.username)
    ensures r.profilePicture == (if picture.Some? then picture.value else a.profilePicture)
    ensures r.role == a.role && r.isChatBlocked == a.isChatBlocked && r.joinedGroups == a.joinedGroups
  {
    var a := if Truthy(username) then a.(username := username.value) else a;
    if picture.Some? then a.(profilePicture := picture.value) else a
  }

  const PROFILE_TYPE_ERROR := "Error: Images Only!"

  class UserDirectory {
    var users: map<Id, Account>

    ghost predicate Valid()
      reads this
    {
      UniqueUsernames(users)
    }

    constructor (users: map<Id, Account>)
      requires UniqueUsernames(users)
      ensures Valid() && this.users == users
    {
      this.users := users;
    }

    /** `PUT /api/users/profile`: a rejected upload is 400; a non-empty username
        held by another account is 400 "Username already taken"; otherwise the
        requester's document gets the new username and picture and is returned
        (null, with status 200, when the requester has no document). */
    method UpdateProfile(requester: Id, username: Option<string>, file: Option<Upload>, stamp: string)
      returns (status: int, updated: Option<Account>)
      requires Valid()
      modifies this
      ensures Valid()
      ensures status == (if file.Some? && Screen(IMAGE_TYPES, PROFILE_TYPE_ERROR, file.value).Some? then BAD_REQUEST
                         else if Truthy(username) && TakenByOther(old(users), username.value, requester) then BAD_REQUEST
                         else OK)
      ensures status == OK && requester in old(users) ==>
        var picture := if file.Some? then Some("/uploads/profile-" + stamp + Extname(file.value.originalName)) else None;
        && updated == Some(ApplyProfile(old(users)[requester], username, picture))
        && users == old(users)[requester := updated.value]
      ensures status != OK || requester !in old(users) ==> updated == None && users == old(users)
    {
      if file.Some? && Screen(IMAGE_TYPES, PROFILE_TYPE_ERROR, file.value).Some? {
        return BAD_REQUEST, None;
      }
      var picture: Option<string> := None;
      if file.Some? {
        picture := Some("/uploads/profile-" + stamp + Extname(file.value.originalName));
      }
      if Truthy(username) && TakenByOther(users, username.value, requester) {
        return BAD_REQUEST, None;
      }
      status := OK;
      if requester !in users {
        return status, None;
      }
      var account := ApplyProfile(users[requester], username, picture);
      users := users[requester := account];
      updated := Some(account);
    }

    /** `GET /api/users`: 500 for an unknown requester, 401 for a non-admin,
        otherwise every account. */
    method ListUsers(requester: Id) returns (status: int, listed: map<Id, Account>)
      requires Valid()
      ensures status == (if requester !in users then SERVER_ERROR
                         else if !IsAdmin(users, requester) then UNAUTHORIZED
                         else OK)
      ensures listed == (if status == OK then users else map[])
    {
      if requester !in users {
        return SERVER_ERROR, map[];
      }
      if users[requester].role != AdminRole {
        return UNAUTHORIZED, map[];
      }
      return OK, users;
    }

    /** `PUT /api/users/:id/block`: 500 for an unknown requester, 401 for a
        non-admin, 404 for a missing target; otherwise `isChatBlocked` flips and
        the new value is reported. */
    method ToggleBlock(target: Id, requester: Id) returns (status: int, isChatBlocked: bool)
      requires Valid()
      modifies this
      ensures Valid()
      ensures status == (if requester !in old(users) then SERVER_ERROR
                         else if !IsAdmin(old(users), requester) then UNAUTHORIZED
                         else if target !in old(users) then NOT_FOUND
                         else OK)
      ensures status == OK ==>
        && isChatBlocked == !old(users)[target].isChatBlocked
        && users == old(users)[target := old(users)[target].(isChatBlocked := isChatBlocked)]
      ensures status != OK ==> users == old(users)
    {
      if requester !in users {
        return SERVER_ERROR, false;
      }
      if users[requester].role != AdminRole {
        return UNAUTHORIZED, false;
      }
      if target !in users {
        return NOT_FOUND, false;
      }
      var user := users[target];
      user := user.(isChatBlocked := !user.isChatBlocked);
      users := users[target := user];
      return OK, user.isChatBlocked;
    }

    /** `DELETE /api/users/:id`: 500 for an unknown requester, 401 for a
        non-admin, 400 when admins target themselves; otherwise the target is
        removed (a missing target still answers 200). */
    method DeleteUser(target: Id, requester: Id) returns (status: int)
      requires Valid()
      modifies this
      ensures Valid()
      ensures status == (if requester !in old(users) then SERVER_ERROR
                         else if !IsAdmin(old(users), requester) then UNAUTHORIZED
                         else if target == requester then BAD_REQUEST
                         else OK)
      ensures status == OK ==> users == old(users) - {target}
      ensures status != OK ==> users == old(users)
      ensures requester in old(users) ==> requester in users
    {
      if requester !in users {
        return SERVER_ERROR;
      }
      if users[requester].role != AdminRole {
        return UNAUTHORIZED;
      }
      if target == requester {
        return BAD_REQUEST;
      }
      users := users - {target};
      status := OK;
    }
  }

  /** Keeping one's own username is allowed, taking somebody else's is not,
      and blocking twice restores the flag. */
  method ProfileScenario()
  {
    var d := new UserDirectory(map["a" := Account("ann", AdminRole, "", false, []),
                                   "b" := Account("ben", UserRole, "", false, [])]);
    var status, updated := d.UpdateProfile("b", Some("ben"), None, "1");
    assert !TakenByOther(map["a" := Account("ann", AdminRole, "", false, []),
                             "b" := Account("ben", UserRole, "", false, [])], "ben", "b");
    assert status == OK;
    assert !TakenByOther(d.users, "ann", "a");
    status, updated := d.UpdateProfile("b", Some("ann"), None, "2");
    assert d.users["a"].username == "ann";
    assert status == BAD_REQUEST;
    var blocked;
    status, blocked := d.ToggleBlock("b", "a");
    assert blocked;
    status, blocked := d.ToggleBlock("b", "a");
    assert !blocked && d.users["b"] == Account("ben", UserRole, "", false, []);
    status := d.DeleteUser("a", "a");
    assert status == BAD_REQUEST;
  }
}
