/** The handlers of `server/routes/groups.js` that change state: create, join,
    leave, and the admin-only delete and restrict. */
module GroupRoutes {
  import opened Wrappers
  import opened Seqs
  import opened Models

  /** The request body of `POST /api/groups`; an absent field is None. */
  datatype GroupForm = GroupForm(name: Option<string>, description: Option<string>,
                                 category: Option<string>, image: Option<string>)

  /** The schema's `required: true` on name, description and category. */
  predicate Complete(form: GroupForm) {
    && form.name.Some? && Required(form.name.value)
    && form.description.Some? && Required(form.description.value)
    && form.category.Some? && Required(form.category.value)
  }

  /** From a state where the user is not a member, joining (`push`) and then
      leaving (`filter`) gives back the member list. */
  lemma {:induction false} JoinThenLeaveRestores(members: seq<Id>, u: Id)
    requires u !in members
    ensures RemoveAll(members + [u], u) == members
  {
    FilterConcat(members, [u], Except(u));
    FilterKeepsAll(members, Except(u));
    assert Filter([u], Except(u)) == [];
  }

  /** Leaving removes the user and keeps everybody else in order. */
  lemma {:induction false} LeaveKeepsOthersInOrder(before: seq<Id>, after: seq<Id>, u: Id)
    requires u !in before && u !in after
    ensures RemoveAll(before + [u] + after, u) == before + after
  {
    FilterDropsOne(before, u, after, Except(u));
  }

  /** `$pull` after `$addToSet` of an absent group gives back the list. */
  lemma AddThenPullRestores(groups: seq<Id>, g: Id)
    requires g !in groups
    ensures RemoveAll(AddToSet(groups, g), g) == groups
  {
    JoinThenLeaveRestores(groups, g);
  }

  class GroupStore {
    var groups: map<Id, Group>
    var users: map<Id, Account>

    /** Member lists and `joinedGroups` lists are duplicate-free, and every
        known member of a group lists it among their `joinedGroups`. */
    ghost predicate Valid()
      reads this
    {
      && (forall g | g in groups :: NoDup(groups[g].members))
      && (forall u | u in users :: NoDup(users[u].joinedGroups))
      && (forall g, u | g in groups && u in groups[g].members && u in users :: g in users[u].joinedGroups)
    }

    constructor (users: map<Id, Account>)
      requires forall u | u in users :: NoDup(users[u].joinedGroups)
      ensures Valid() && groups == map[] && this.users == users
    {
      this.groups := map[];
      this.users := users;
    }

    /** `User.findByIdAndUpdate(id, {$addToSet: {joinedGroups: g}})`; an unknown id updates nothing. */
    static function WithGroup(users: map<Id, Account>, u: Id, g: Id): (r: map<Id, Account>)
      ensures r.Keys == users.Keys
      ensures u in users ==> r[u] == users[u].(joinedGroups := AddToSet(users[u].joinedGroups, g))
      ensures forall v | v in users && v != u :: r[v] == users[v]
    {
      if u in users then users[u := users[u].(joinedGroups := AddToSet(users[u].joinedGroups, g))] else users
    }

    /** `User.findByIdAndUpdate(id, {$pull: {joinedGroups: g}})`; an unknown id updates nothing. */
    static function WithoutGroup(users: map<Id, Account>, u: Id, g: Id): (r: map<Id, Account>)
      ensures r.Keys == users.Keys
      ensures u in users ==> r[u] == users[u].(joinedGroups := RemoveAll(users[u].joinedGroups, g))
      ensures forall v | v in users && v != u :: r[v] == users[v]
    {
      if u in users then users[u := users[u].(joinedGroups := RemoveAll(users[u].joinedGroups, g))] else users
    }

    /** `POST /api/groups`: a group missing a required field fails to save (500);
        otherwise its only member and its creator is the requester, and it is
        added to the requester's `joinedGroups`. */
    method Create(requester: Id, form: GroupForm, newId: Id) returns (status: int)
      requires Valid() && newId !in groups
      modifies this
      ensures Valid()
      ensures status == (if Complete(form) then OK else SERVER_ERROR)
      ensures status == OK ==>
        && groups == old(groups)[newId := Group(form.name.value, form.description.value, form.category.value,
                                               form.image, requester, [requester], false)]
        && users == WithGroup(old(users), requester, newId)
      ensures status != OK ==> groups == old(groups) && users == old(users)
    {
      if !Complete(form) {
        return SERVER_ERROR;
      }
      var newGroup := Group(form.name.value, form.description.value, form.category.value,
                            form.image, requester, [requester], false);
      groups := groups[newId := newGroup];
      users := WithGroup(users, requester, newId);
      status := OK;
    }

    /** `POST /api/groups/:id/join`: 404 for a missing group, 400 for a member;
        otherwise the requester is appended once and the group added to their
        `joinedGroups`. */
    method Join(groupId: Id, requester: Id) returns (status: int)
      requires Valid()
      modifies this
      ensures Valid()
      ensures status == (if groupId !in old(groups) then NOT_FOUND
                         else if requester in old(groups)[groupId].members then BAD_REQUEST
                         else OK)
      ensures status == OK ==>
        && groups == old(groups)[groupId := old(groups)[groupId].(members := old(groups)[groupId].members + [requester])]
        && users == WithGroup(old(users), requester, groupId)
      ensures status != OK ==> groups == old(groups) && users == old(users)
    {
      if groupId !in groups {
        return NOT_FOUND;
      }
      var group := groups[groupId];
      if requester in group.members {
        return BAD_REQUEST;
      }
      var members := group.members + [requester];
      assert NoDup(members) by {
        forall i, j | 0 <= i < j < |members| ensures members[i] != members[j] {
          if j == |group.members| {
            assert members[i] == group.members[i];
          }
        }
      }
      groups := groups[groupId := group.(members := members)];
      users := WithGroup(users, requester, groupId);
      status := OK;
    }

    /** `POST /api/groups/:id/leave`: 404 for a missing group, 400 for a
        non-member; otherwise every occurrence of the requester is filtered out
        and the group pulled from their `joinedGroups`. */
    method Leave(groupId: Id, requester: Id) returns (status: int)
      requires Valid()
      modifies this
      ensures Valid()
      ensures status == (if groupId !in old(groups) then NOT_FOUND
                         else if requester !in old(groups)[groupId].members then BAD_REQUEST
                         else OK)
      ensures status == OK ==>
        && groups == old(groups)[groupId := old(groups)[groupId].(members := RemoveAll(old(groups)[groupId].members, requester))]
        && users == WithoutGroup(old(users), requester, groupId)
      ensures status != OK ==> groups == old(groups) && users == old(users)
    {
      if groupId !in groups {
        return NOT_FOUND;
      }
      var group := groups[groupId];
      if requester !in group.members {
        return BAD_REQUEST;
      }
      FilterNoDup(group.members, Except(requester));
      groups := groups[groupId := group.(members := RemoveAll(group.members, requester))];
      if requester in users {
        FilterNoDup(users[requester].joinedGroups, Except(groupId));
      }
      users := WithoutGroup(users, requester, groupId);
      status := OK;
    }

    /** `DELETE /api/groups/:id`: an unknown requester makes `user.role` throw
        (500), a non-admin gets 403; an admin removes the group, and deleting a
        missing group still answers 200. */
    method Delete(groupId: Id, requester: Id) returns (status: int)
      requires Valid()
      modifies this
      ensures Valid()
      ensures status == (if requester !in old(users) then SERVER_ERROR
                         else if !IsAdmin(old(users), requester) then FORBIDDEN
                         else OK)
      ensures status == OK ==> groups == old(groups) - {groupId}
      ensures status != OK ==> groups == old(groups)
      ensures users == old(users)
    {
      if requester !in users {
        return SERVER_ERROR;
      }
      if users[requester].role != AdminRole {
        return FORBIDDEN;
      }
      groups := groups - {groupId};
      status := OK;
    }

    /** `PUT /api/groups/:id/restrict`: 500 for an unknown requester, 403 for a
        non-admin, 404 for a missing group; otherwise `isRestricted` flips. */
    method Restrict(groupId: Id, requester: Id) returns (status: int)
      requires Valid()
      modifies this
      ensures Valid()
      ensures status == (if requester !in old(users) then SERVER_ERROR
                         else if !IsAdmin(old(users), requester) then FORBIDDEN
                         else if groupId !in old(groups) then NOT_FOUND
                         else OK)
      ensures status == OK ==>
        groups == old(groups)[groupId := old(groups)[groupId].(isRestricted := !old(groups)[groupId].isRestricted)]
      ensures status != OK ==> groups == old(groups)
      ensures users == old(users)
    {
      if requester !in users {
        return SERVER_ERROR;
      }
      if users[requester].role != AdminRole {
        return FORBIDDEN;
      }
      if groupId !in groups {
        return NOT_FOUND;
      }
      var group := groups[groupId];
      groups := groups[groupId := group.(isRestricted := !group.isRestricted)];
      status := OK;
    }
  }

  /** An admin restricting a group twice leaves it as it was; a member who
      joins and leaves leaves the member list as it was. */
  method RoundTripScenario()
  {
    var admin := Account("root", AdminRole, "", false, []);
    var s := new GroupStore(map["a" := admin, "b" := Account("bob", UserRole, "", false, [])]);
    var status := s.Create("a", GroupForm(Some("Chess"), Some("Weekly games"), Some("Games"), None), "g");
    assert status == OK;
    var before := s.groups["g"];
    status := s.Restrict("g", "a");
    status := s.Restrict("g", "a");
    assert s.groups["g"] == before;
    status := s.Join("g", "b");
    assert status == OK;
    status := s.Join("g", "b");
    assert status == BAD_REQUEST;
    status := s.Leave("g", "b");
    assert status == OK;
    JoinThenLeaveRestores(["a"], "b");
    assert s.groups["g"].members == ["a"];
    status := s.Restrict("g", "b");
    assert status == FORBIDDEN;
  }
}
