/**
  `GroupService` of src/core/services/group.py over the three fake
  repositories, all sharing one FakeDatabase.  Every method is proved to
  leave the database and return exactly what the matching function of
  GroupRules describes; the properties of the service are proved there.
*/
module GroupService {
  import opened Wrappers
  import opened FilterBase
  import opened GroupModels
  import opened GroupErrors
  import opened GroupSchemas
  import opened GroupFilters
  import opened Tables
  import opened FakeRepositories
  import GroupRules

  /**
    update_group's loop `for key, value in ...: setattr(group, key, value);
    fields_to_update.append(key)`: it stops at the first setattr that raises.
  */
  method SetAttrsLoop(group: Group, items: seq<GroupRules.FieldPatch>) returns (r: Result<Group, Error>, fieldsToUpdate: seq<string>)
    ensures r == GroupRules.SetAttrs(group, items)
    ensures r.Ok? ==> fieldsToUpdate == seq(|items|, i requires 0 <= i < |items| => GroupRules.PatchKey(items[i]))
  {
    var g := group;
    fieldsToUpdate := [];
    var i := 0;
    while i < |items|
      invariant 0 <= i <= |items|
      invariant GroupRules.SetAttrs(g, items[i..]) == GroupRules.SetAttrs(group, items)
      invariant fieldsToUpdate == seq(i, k requires 0 <= k < i => GroupRules.PatchKey(items[k]))
    {
      assert items[i..][0] == items[i] && items[i..][1..] == items[i + 1..];
      var patched := GroupRules.SetAttr(g, items[i]);
      if patched.Err? {
        return Err(patched.error), fieldsToUpdate;
      }
      g := patched.value;
      fieldsToUpdate := fieldsToUpdate + [GroupRules.PatchKey(items[i])];
      i := i + 1;
    }
    assert items[i..] == [];
    r := Ok(g);
  }

  class GroupService {
    const groupRepository: FakeGroupRepository
    const memberRepository: FakeGroupMemberRepository
    const requestRepository: FakeGroupRequestRepository
    ghost const db: FakeDatabase

    ghost predicate Valid()
      reads db
    {
      && groupRepository.db == db && memberRepository.db == db && requestRepository.db == db
      && db.Valid()
    }

    constructor(groupRepository: FakeGroupRepository, memberRepository: FakeGroupMemberRepository,
                requestRepository: FakeGroupRequestRepository)
      requires memberRepository.db == groupRepository.db && requestRepository.db == groupRepository.db
      requires groupRepository.db.Valid()
      ensures Valid() && db == groupRepository.db
      ensures this.groupRepository == groupRepository && this.memberRepository == memberRepository
      ensures this.requestRepository == requestRepository
    {
      this.groupRepository := groupRepository;
      this.memberRepository := memberRepository;
      this.requestRepository := requestRepository;
      db := groupRepository.db;
    }

    method CreateGroup(userId: Uuid, schema: CreateGroupSchema, groupId: Uuid, memberId: Uuid)
      returns (r: Result<Group, Error>)
      requires Valid()
      modifies db
      ensures Valid()
      ensures GroupRules.Outcome(db.State(), r) == GroupRules.CreateGroup(old(db.State()), userId, schema, groupId, memberId)
    {
      var group := NewGroup(groupId, schema.name, schema.description, schema.isPrivate);
      var member := NewGroupMember(memberId, userId, group.id, isOwner := true);
      var written := groupRepository.Persist(group);
      if written.Err? {
        return Err(written.error);
      }
      written := memberRepository.Persist(member);
      if written.Err? {
        return Err(written.error);
      }
      r := Ok(group);
    }

    /** `update_group` as intended: the loop sets only the fields the caller gave. */
    method UpdateGroup(requestUserId: Uuid, groupId: Uuid, schema: UpdateGroupSchema) returns (r: Result<(), Error>)
      requires Valid()
      modifies db
      ensures Valid()
      ensures GroupRules.Outcome(db.State(), r) == GroupRules.UpdateGroup(old(db.State()), requestUserId, groupId, schema)
    {
      var found := groupRepository.Get(groupId);
      if found.Err? {
        return Err(found.error);
      }
      var member := memberRepository.GetByUserAndGroupId(requestUserId, groupId);
      if member.Err? {
        return Err(NotAGroupMember);
      }
      if !member.value.isOwner {
        return Err(NotAGroupOwner);
      }
      var patched, fieldsToUpdate := SetAttrsLoop(found.value, GroupRules.Dump(schema));
      if patched.Err? {
        return Err(patched.error);
      }
      groupRepository.Update(patched.value, fieldsToUpdate);
      r := Ok(());
    }

    method DeleteGroup(requestUserId: Uuid, groupId: Uuid) returns (r: Result<(), Error>)
      requires Valid()
      modifies db
      ensures Valid()
      ensures GroupRules.Outcome(db.State(), r) == GroupRules.DeleteGroup(old(db.State()), requestUserId, groupId)
    {
      var group := groupRepository.Get(groupId);
      if group.Err? {
        return Err(group.error);
      }
      var member := memberRepository.GetByUserAndGroupId(requestUserId, groupId);
      if member.Err? {
        return Err(NotAGroupMember);
      }
      if !member.value.isOwner {
        return Err(NotAGroupOwner);
      }
      memberRepository.DeleteByGroupId(groupId);
      requestRepository.DeleteByGroupId(groupId);
      r := groupRepository.Delete(group.value);
    }

    method GetGroup(groupId: Uuid) returns (r: Result<Group, Error>)
      requires Valid()
      ensures r == GroupRules.GetGroup(db.State(), groupId).result
    {
      r := groupRepository.Get(groupId);
    }

    method GetGroups(inputFilters: Option<GroupInputFilters>) returns (r: Result<seq<Group>, Error>)
      requires Valid()
      ensures r == GroupRules.GetGroups(db.State(), inputFilters).result
    {
      var input := if inputFilters.None? then GroupInputFilters() else inputFilters.value;
      var filterSet := GroupFilterSetOf(input);
      var groups := groupRepository.GetMany(Some(GroupEntries(filterSet)));
      r := GroupRules.Listed(groups);
    }

    method GetGroupsForUser(userId: Uuid) returns (r: Result<seq<Group>, Error>)
      requires Valid()
      ensures r == GroupRules.GetGroupsForUser(db.State(), userId).result
    {
      r := groupRepository.GetManyForUser(userId);
    }

    /** The request takes only its message from the schema (see GroupRules.CreateGroupRequestAsWritten). */
    method CreateGroupRequest(userId: Uuid, groupId: Uuid, schema: CreateGroupRequestSchema, requestId: Uuid)
      returns (r: Result<GroupRequest, Error>)
      requires Valid()
      modifies db
      ensures Valid()
      ensures GroupRules.Outcome(db.State(), r)
           == GroupRules.CreateGroupRequest(old(db.State()), userId, groupId, schema, requestId)
    {
      var pending := requestRepository.GetPendingRequestByUserAndGroupId(userId, groupId);
      if pending.Ok? {
        return Err(AlreadyRequestedToJoinGroup);
      }
      var member := memberRepository.GetByUserAndGroupId(userId, groupId);
      if member.Ok? {
        return Err(AlreadyAGroupMember);
      }
      var request := NewGroupRequest(requestId, userId, groupId, schema.message);
      var written := requestRepository.Persist(request);
      if written.Err? {
        return Err(written.error);
      }
      r := Ok(request);
    }

    /** `update_group_request` as intended: the new member is not an admin. */
    method UpdateGroupRequest(requestUserId: Uuid, groupId: Uuid, requestId: Uuid, schema: UpdateGroupRequestSchema,
                              memberId: Uuid) returns (r: Result<(), Error>)
      requires Valid()
      modifies db
      ensures Valid()
      ensures GroupRules.Outcome(db.State(), r)
           == GroupRules.UpdateGroupRequest(old(db.State()), requestUserId, groupId, requestId, schema, memberId)
    {
      var found := requestRepository.Get(requestId);
      if found.Err? {
        return Err(found.error);
      }
      if found.value.groupId != groupId {
        return Err(DoesNotExist);
      }
      var member := memberRepository.GetByUserAndGroupId(requestUserId, groupId);
      if member.Err? {
        return Err(member.error);
      }
      if !(member.value.isOwner || member.value.isAdmin) {
        return Err(NotAGroupOwnerOrAdmin);
      }
      if found.value.status != Pending {
        return Err(RequestNotPending);
      }
      var request := found.value.(status := schema.status);
      requestRepository.Update(request, ["status"]);
      if schema.status == Declined {
        return Ok(());
      }
      var created := CreateGroupMember(CreateGroupMemberSchema(request.userId, request.groupId, false), memberId);
      r := if created.Ok? then Ok(()) else Err(created.error);
    }

    method DeleteGroupRequest(requestUserId: Uuid, groupId: Uuid, requestId: Uuid) returns (r: Result<(), Error>)
      requires Valid()
      modifies db
      ensures Valid()
      ensures GroupRules.Outcome(db.State(), r)
           == GroupRules.DeleteGroupRequest(old(db.State()), requestUserId, groupId, requestId)
    {
      var request := requestRepository.Get(requestId);
      if request.Err? {
        return Err(request.error);
      }
      if request.value.groupId != groupId {
        return Err(DoesNotExist);
      }
      if request.value.userId != requestUserId {
        return Err(DoesNotExist);
      }
      if request.value.status != Pending {
        return Err(RequestNotPending);
      }
      r := requestRepository.Delete(request.value);
    }

    method GetGroupRequest(requestUserId: Uuid, groupId: Uuid, requestId: Uuid) returns (r: Result<GroupRequest, Error>)
      requires Valid()
      ensures r == GroupRules.GetGroupRequest(db.State(), requestUserId, groupId, requestId).result
    {
      var request := requestRepository.Get(requestId);
      if request.Err? {
        return Err(request.error);
      }
      if request.value.groupId != groupId {
        return Err(DoesNotExist);
      }
      var member := memberRepository.GetByUserAndGroupId(requestUserId, groupId);
      if member.Ok? {
        if !(member.value.isAdmin || member.value.isOwner) {
          return Err(NotAGroupOwnerOrAdmin);
        }
      } else if request.value.userId != requestUserId {
        return Err(NotARequestOwner);
      }
      r := Ok(request.value);
    }

    method GetGroupRequestsForGroup(requestUserId: Uuid, groupId: Uuid) returns (r: Result<seq<GroupRequest>, Error>)
      requires Valid()
      ensures r == GroupRules.GetGroupRequestsForGroup(db.State(), requestUserId, groupId).result
    {
      var filterSet := GroupRequestFilterSet(Some(groupId), None, Some(Pending));
      var member := memberRepository.GetByUserAndGroupId(requestUserId, groupId);
      if member.Ok? {
        if !(member.value.isAdmin || member.value.isOwner) {
          return Err(NotAGroupOwnerOrAdmin);
        }
      } else {
        filterSet := filterSet.(userIdEq := Some(requestUserId));
      }
      var requests := requestRepository.GetMany(Some(RequestEntries(filterSet)));
      r := GroupRules.Listed(requests);
    }

    method GetGroupRequestsForUser(userId: Uuid) returns (r: Result<seq<GroupRequest>, Error>)
      requires Valid()
      ensures r == GroupRules.GetGroupRequestsForUser(db.State(), userId).result
    {
      var filterSet := GroupRequestFilterSet(None, Some(userId), Some(Pending));
      var requests := requestRepository.GetMany(Some(RequestEntries(filterSet)));
      r := GroupRules.Listed(requests);
    }

    method CreateGroupMember(schema: CreateGroupMemberSchema, memberId: Uuid) returns (r: Result<GroupMember, Error>)
      requires Valid()
      modifies db
      ensures Valid()
      ensures GroupRules.Outcome(db.State(), r) == GroupRules.CreateGroupMember(old(db.State()), schema, memberId)
    {
      var group := groupRepository.Get(schema.groupId);
      if group.Err? {
        return Err(group.error);
      }
      var existing := memberRepository.GetByUserAndGroupId(schema.userId, schema.groupId);
      if existing.Ok? {
        return Err(AlreadyAGroupMember);
      }
      var member := NewGroupMember(memberId, schema.userId, schema.groupId, schema.isAdmin);
      var written := memberRepository.Persist(member);
      if written.Err? {
        return Err(written.error);
      }
      r := Ok(member);
    }

    method UpdateGroupMember(requestUserId: Uuid, groupId: Uuid, memberId: Uuid, schema: UpdateGroupMemberSchema)
      returns (r: Result<(), Error>)
      requires Valid()
      modifies db
      ensures Valid()
      ensures GroupRules.Outcome(db.State(), r)
           == GroupRules.UpdateGroupMember(old(db.State()), requestUserId, groupId, memberId, schema)
    {
      var group := groupRepository.Get(groupId);
      if group.Err? {
        return Err(group.error);
      }
      var member := memberRepository.GetByUserAndGroupId(requestUserId, groupId);
      if member.Err? {
        return Err(NotAGroupMember);
      }
      if !member.value.isOwner {
        return Err(NotAGroupOwner);
      }
      var target := memberRepository.Get(memberId);
      if target.Err? {
        return Err(target.error);
      }
      if target.value.isAdmin == schema.isAdmin {
        return Ok(());
      }
      var updated := target.value.(isAdmin := schema.isAdmin);
      memberRepository.Update(updated, ["is_admin"]);
      r := Ok(());
    }

    method ChangeGroupOwner(requestUserId: Uuid, groupId: Uuid, memberId: Uuid) returns (r: Result<(), Error>)
      requires Valid()
      modifies db
      ensures Valid()
      ensures GroupRules.Outcome(db.State(), r)
           == GroupRules.ChangeGroupOwner(old(db.State()), requestUserId, groupId, memberId)
    {
      var group := groupRepository.Get(groupId);
      if group.Err? {
        return Err(group.error);
      }
      var member := memberRepository.GetByUserAndGroupId(requestUserId, groupId);
      if member.Err? {
        return Err(NotAGroupMember);
      }
      var target := memberRepository.Get(memberId);
      if target.Err? {
        return Err(target.error);
      }
      if !member.value.isOwner {
        return Err(NotAGroupOwner);
      }
      if target.value.userId == requestUserId {
        return Err(AlreadyAGroupOwner);
      }
      var demoted := member.value.(isOwner := false);
      var promoted := target.value.(isOwner := true);
      memberRepository.Update(demoted, ["is_owner"]);
      memberRepository.Update(promoted, ["is_owner"]);
      r := Ok(());
    }

    method DeleteGroupMember(requestUserId: Uuid, groupId: Uuid, memberId: Uuid) returns (r: Result<(), Error>)
      requires Valid()
      modifies db
      ensures Valid()
      ensures GroupRules.Outcome(db.State(), r)
           == GroupRules.DeleteGroupMember(old(db.State()), requestUserId, groupId, memberId)
    {
      var group := groupRepository.Get(groupId);
      if group.Err? {
        return Err(group.error);
      }
      var member := memberRepository.GetByUserAndGroupId(requestUserId, groupId);
      if member.Err? {
        return Err(NotAGroupMember);
      }
      if !(member.value.isAdmin || member.value.isOwner) {
        return Err(NotAGroupOwnerOrAdmin);
      }
      var target := memberRepository.Get(memberId);
      if target.Err? {
        return Err(target.error);
      }
      if target.value.isOwner {
        return Err(CannotDeleteAGroupOwner);
      }
      if target.value.isAdmin && !member.value.isOwner {
        return Err(NotAGroupOwner);
      }
      r := memberRepository.Delete(target.value);
    }

    method LeaveGroup(requestUserId: Uuid, groupId: Uuid) returns (r: Result<(), Error>)
      requires Valid()
      modifies db
      ensures Valid()
      ensures GroupRules.Outcome(db.State(), r) == GroupRules.LeaveGroup(old(db.State()), requestUserId, groupId)
    {
      var member := memberRepository.GetByUserAndGroupId(requestUserId, groupId);
      if member.Err? {
        return Err(member.error);
      }
      if member.value.isOwner {
        return Err(CannotLeaveGroupAsOwner);
      }
      r := memberRepository.Delete(member.value);
    }

    method GetGroupMember(requestUserId: Uuid, groupId: Uuid, memberId: Uuid) returns (r: Result<GroupMember, Error>)
      requires Valid()
      ensures r == GroupRules.GetGroupMember(db.State(), requestUserId, groupId, memberId).result
    {
      var group := groupRepository.Get(groupId);
      if group.Err? {
        return Err(group.error);
      }
      var membership := memberRepository.GetByUserAndGroupId(requestUserId, groupId);
      if membership.Err? && group.value.isPrivate {
        return Err(NotAGroupMember);
      }
      var member := memberRepository.Get(memberId);
      if member.Err? {
        return Err(member.error);
      }
      if member.value.groupId != groupId {
        return Err(DoesNotExist);
      }
      r := Ok(member.value);
    }

    method GetGroupMembers(requestUserId: Uuid, groupId: Uuid, filters: Option<GroupMemberInputFilters>)
      returns (r: Result<seq<GroupMember>, Error>)
      requires Valid()
      ensures r == GroupRules.GetGroupMembers(db.State(), requestUserId, groupId, filters).result
    {
      var input := if filters.None? then GroupMemberInputFilters() else filters.value;
      var filterSet := MemberFilterSetFor(groupId, input);
      var group := groupRepository.Get(groupId);
      if group.Err? {
        return Err(group.error);
      }
      var membership := memberRepository.GetByUserAndGroupId(requestUserId, groupId);
      if membership.Err? && group.value.isPrivate {
        return Err(NotAGroupMember);
      }
      var members := memberRepository.GetMany(Some(MemberEntries(filterSet)));
      r := GroupRules.Listed(members);
    }
  }
}
