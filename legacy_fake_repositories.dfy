/**
  The earlier in-memory repositories of src/tests/fakes/repositories/group.py:
  each repository owns its own dict instead of sharing a database, and none
  of them has `delete_by_group_id` or `get_many_for_user`.  They compute the
  same functions as the shared-database fakes, on their own table.
*/
module LegacyFakeRepositories {
  import opened Wrappers
  import opened FilterBase
  import opened GroupModels
  import opened GroupErrors
  import opened Tables
  import opened FakeRepositories

  class FakeGroupRepository {
    var groups: Table<Group>

    ghost predicate Valid()
      reads this
    {
      groups.Valid() && Keyed(groups, GroupIdOf)
    }

    constructor()
      ensures Valid() && groups == Empty()
    {
      groups := Empty();
    }

    method Get(pk: Uuid) returns (r: Result<Group, Error>)
      ensures r == Lookup(groups, pk)
    {
      if pk in groups.rows {
        r := Ok(groups.rows[pk]);
      } else {
        r := Err(DoesNotExist);
      }
    }

    method GetMany(filterSet: Option<seq<FieldEntry>>) returns (r: Result<seq<Group>, FilterError>)
      requires Valid()
      ensures r == ManyOf(groups, filterSet, GroupFields)
    {
      var all := groups.Values();
      if filterSet.Some? {
        var filters := GetFilters(filterSet.value);
        if filters.Err? {
          return Err(filters.error);
        }
        r := Matching(all, filters.value, GroupFields);
      } else {
        r := Ok(all);
      }
    }

    method Persist(group: Group) returns (r: Result<(), Error>)
      requires Valid()
      modifies this
      ensures Valid()
      ensures Write(groups, r) == Persisted(old(groups), group.id, group)
    {
      if group.id in groups.rows {
        return Err(AlreadyExists);
      }
      groups := groups.Set(group.id, group);
      r := Ok(());
    }

    method PersistMany(batch: seq<Group>) returns (r: Result<(), Error>)
      requires Valid()
      modifies this
      ensures Valid()
      ensures Write(groups, r) == PersistedAll(old(groups), batch, GroupIdOf)
    {
      var i := 0;
      while i < |batch|
        invariant 0 <= i <= |batch|
        invariant Valid()
        invariant PersistedAll(groups, batch[i..], GroupIdOf) == PersistedAll(old(groups), batch, GroupIdOf)
      {
        assert batch[i..][0] == batch[i] && batch[i..][1..] == batch[i + 1..];
        if batch[i].id in groups.rows {
          return Err(AlreadyExists);
        }
        groups := groups.Set(batch[i].id, batch[i]);
        i := i + 1;
      }
      r := Ok(());
    }

    method Update(group: Group, fieldsToUpdate: seq<string>)
      requires Valid()
      modifies this
      ensures Valid()
      ensures groups == old(groups).Set(group.id, group)
    {
      groups := groups.Set(group.id, group);
    }

    method Delete(group: Group) returns (r: Result<(), Error>)
      requires Valid()
      modifies this
      ensures Valid()
      ensures Write(groups, r) == Deleted(old(groups), group.id)
    {
      if group.id !in groups.rows {
        return Err(KeyError);
      }
      groups := groups.Del(group.id);
      r := Ok(());
    }
  }

  class FakeGroupRequestRepository {
    var groupRequests: Table<GroupRequest>

    ghost predicate Valid()
      reads this
    {
      groupRequests.Valid() && Keyed(groupRequests, RequestIdOf)
    }

    constructor()
      ensures Valid() && groupRequests == Empty()
    {
      groupRequests := Empty();
    }

    method Get(pk: Uuid) returns (r: Result<GroupRequest, Error>)
      ensures r == Lookup(groupRequests, pk)
    {
      if pk in groupRequests.rows {
        r := Ok(groupRequests.rows[pk]);
      } else {
        r := Err(DoesNotExist);
      }
    }

    method GetMany(filterSet: Option<seq<FieldEntry>>) returns (r: Result<seq<GroupRequest>, FilterError>)
      requires Valid()
      ensures r == ManyOf(groupRequests, filterSet, RequestFields)
    {
      var all := groupRequests.Values();
      if filterSet.Some? {
        var filters := GetFilters(filterSet.value);
        if filters.Err? {
          return Err(filters.error);
        }
        r := Matching(all, filters.value, RequestFields);
      } else {
        r := Ok(all);
      }
    }

    method Persist(request: GroupRequest) returns (r: Result<(), Error>)
      requires Valid()
      modifies this
      ensures Valid()
      ensures Write(groupRequests, r) == Persisted(old(groupRequests), request.id, request)
    {
      if request.id in groupRequests.rows {
        return Err(AlreadyExists);
      }
      groupRequests := groupRequests.Set(request.id, request);
      r := Ok(());
    }

    method PersistMany(batch: seq<GroupRequest>) returns (r: Result<(), Error>)
      requires Valid()
      modifies this
      ensures Valid()
      ensures Write(groupRequests, r) == PersistedAll(old(groupRequests), batch, RequestIdOf)
    {
      var i := 0;
      while i < |batch|
        invariant 0 <= i <= |batch|
        invariant Valid()
        invariant PersistedAll(groupRequests, batch[i..], RequestIdOf)
               == PersistedAll(old(groupRequests), batch, RequestIdOf)
      {
        assert batch[i..][0] == batch[i] && batch[i..][1..] == batch[i + 1..];
        if batch[i].id in groupRequests.rows {
          return Err(AlreadyExists);
        }
        groupRequests := groupRequests.Set(batch[i].id, batch[i]);
        i := i + 1;
      }
      r := Ok(());
    }

    method Update(request: GroupRequest, fieldsToUpdate: seq<string>)
      requires Valid()
      modifies this
      ensures Valid()
      ensures groupRequests == old(groupRequests).Set(request.id, request)
    {
      groupRequests := groupRequests.Set(request.id, request);
    }

    method Delete(request: GroupRequest) returns (r: Result<(), Error>)
      requires Valid()
      modifies this
      ensures Valid()
      ensures Write(groupRequests, r) == Deleted(old(groupRequests), request.id)
    {
      if request.id !in groupRequests.rows {
        return Err(KeyError);
      }
      groupRequests := groupRequests.Del(request.id);
      r := Ok(());
    }

    method GetPendingRequestByUserAndGroupId(userId: Uuid, groupId: Uuid) returns (r: Result<GroupRequest, Error>)
      requires Valid()
      ensures r == PendingOf(groupRequests, userId, groupId)
    {
      var all := groupRequests.Values();
      var i := 0;
      while i < |all|
        invariant 0 <= i <= |all|
        invariant First(all[i..], IsPendingRequest(userId, groupId)) == First(all, IsPendingRequest(userId, groupId))
      {
        assert all[i..][0] == all[i] && all[i..][1..] == all[i + 1..];
        var q := all[i];
        if q.userId == userId && q.groupId == groupId && q.status == Pending {
          return Ok(q);
        }
        i := i + 1;
      }
      r := Err(DoesNotExist);
    }
  }

  class FakeGroupMemberRepository {
    var groupMembers: Table<GroupMember>

    ghost predicate Valid()
      reads this
    {
      groupMembers.Valid() && Keyed(groupMembers, MemberIdOf)
    }

    constructor()
      ensures Valid() && groupMembers == Empty()
    {
      groupMembers := Empty();
    }

    method Get(pk: Uuid) returns (r: Result<GroupMember, Error>)
      ensures r == Lookup(groupMembers, pk)
    {
      if pk in groupMembers.rows {
        r := Ok(groupMembers.rows[pk]);
      } else {
        r := Err(DoesNotExist);
      }
    }

    method GetMany(filterSet: Option<seq<FieldEntry>>) returns (r: Result<seq<GroupMember>, FilterError>)
      requires Valid()
      ensures r == ManyOf(groupMembers, filterSet, MemberFields)
    {
      var all := groupMembers.Values();
      if filterSet.Some? {
        var filters := GetFilters(filterSet.value);
        if filters.Err? {
          return Err(filters.error);
        }
        r := Matching(all, filters.value, MemberFields);
      } else {
        r := Ok(all);
      }
    }

    method Persist(member: GroupMember) returns (r: Result<(), Error>)
      requires Valid()
      modifies this
      ensures Valid()
      ensures Write(groupMembers, r) == Persisted(old(groupMembers), member.id, member)
    {
      if member.id in groupMembers.rows {
        return Err(AlreadyExists);
      }
      groupMembers := groupMembers.Set(member.id, member);
      r := Ok(());
    }

    method PersistMany(batch: seq<GroupMember>) returns (r: Result<(), Error>)
      requires Valid()
      modifies this
      ensures Valid()
      ensures Write(groupMembers, r) == PersistedAll(old(groupMembers), batch, MemberIdOf)
    {
      var i := 0;
      while i < |batch|
        invariant 0 <= i <= |batch|
        invariant Valid()
        invariant PersistedAll(groupMembers, batch[i..], MemberIdOf)
               == PersistedAll(old(groupMembers), batch, MemberIdOf)
      {
        assert batch[i..][0] == batch[i] && batch[i..][1..] == batch[i + 1..];
        if batch[i].id in groupMembers.rows {
          return Err(AlreadyExists);
        }
        groupMembers := groupMembers.Set(batch[i].id, batch[i]);
        i := i + 1;
      }
      r := Ok(());
    }

    method Update(member: GroupMember, fieldsToUpdate: seq<string>)
      requires Valid()
      modifies this
      ensures Valid()
      ensures groupMembers == old(groupMembers).Set(member.id, member)
    {
      groupMembers := groupMembers.Set(member.id, member);
    }

    method Delete(member: GroupMember) returns (r: Result<(), Error>)
      requires Valid()
      modifies this
      ensures Valid()
      ensures Write(groupMembers, r) == Deleted(old(groupMembers), member.id)
    {
      if member.id !in groupMembers.rows {
        return Err(KeyError);
      }
      groupMembers := groupMembers.Del(member.id);
      r := Ok(());
    }

    method GetByUserAndGroupId(userId: Uuid, groupId: Uuid) returns (r: Result<GroupMember, Error>)
      requires Valid()
      ensures r == MemberOf(groupMembers, userId, groupId)
    {
      var all := groupMembers.Values();
      var i := 0;
      while i < |all|
        invariant 0 <= i <= |all|
        invariant First(all[i..], IsMembership(userId, groupId)) == First(all, IsMembership(userId, groupId))
      {
        assert all[i..][0] == all[i] && all[i..][1..] == all[i + 1..];
        if all[i].userId == userId && all[i].groupId == groupId {
          return Ok(all[i]);
        }
        i := i + 1;
      }
      r := Err(DoesNotExist);
    }
  }
}
