/**
  What each operation of `GroupService` (src/core/services/group.py) does,
  as a function from the database before the call to the database after it
  and the value returned or the exception raised.  The repository calls are
  the functions of FakeRepositories; a raise that the service does not catch
  ends the operation with whatever writes have already happened.

  Fresh ids (uuid4 in the source) are parameters.  The service's exception
  classes are all distinct from DoesNotExistError, so its `except
  DoesNotExistError` clauses catch only the repositories' lookups.
*/
module GroupRules {
  import opened Wrappers
  import opened FilterBase
  import opened GroupModels
  import opened GroupErrors
  import opened GroupSchemas
  import opened GroupFilters
  import opened Tables
  import opened FakeRepositories

  /** The database after an operation, and what the operation returned or raised. */
  datatype Outcome<T> = Outcome(db: Db, result: Result<T, Error>)

  function Fail<T>(d: Db, e: Error): Outcome<T>
  {
    Outcome(d, Err(e))
  }

  /** A listing's filter exception, as the service lets it through. */
  function Listed<T>(r: Result<seq<T>, FilterError>): Result<seq<T>, Error>
  {
    if r.Ok? then Ok(r.value) else Err(FilterFailed(r.error))
  }

  // ---- update_group's setattr loop ----------------------------------------

  /** One item of `schema.model_dump().items()`. */
  datatype FieldPatch =
    | SetOwnerId(ownerId: Option<bool>)
    | SetIsPrivate(flag: bool)
    | SetName(text: string)
    | SetDescription(description: Option<string>)

  /**
    The dump as intended (what the service tests build): the fields the
    caller gave, in declaration order: owner_id, is_private, name,
    description.
  */
  function Dump(schema: UpdateGroupSchema): seq<FieldPatch>
  {
    (if schema.ownerId.Some? then [SetOwnerId(schema.ownerId)] else [])
    + ((if schema.isPrivate.Some? then [SetIsPrivate(schema.isPrivate.value)] else [])
       + ((if schema.name.Some? then [SetName(schema.name.value)] else [])
          + (if schema.description.Some? then [SetDescription(schema.description.value)] else [])))
  }

  /** The key of a dumped item. */
  function PatchKey(p: FieldPatch): string
  {
    match p
    case SetOwnerId(_) => "owner_id"
    case SetIsPrivate(_) => "is_private"
    case SetName(_) => "name"
    case SetDescription(_) => "description"
  }

  /** `setattr(group, key, value)`: a Group has no owner_id field, so pydantic raises. */
  function SetAttr(g: Group, p: FieldPatch): (r: Result<Group, Error>)
    ensures r.Err? <==> PatchKey(p) == "owner_id"
    ensures r.Err? ==> r.error == NoSuchField
    ensures r.Ok? ==> r.value.id == g.id
  {
    match p
    case SetOwnerId(_) => Err(NoSuchField)
    case SetIsPrivate(b) => Ok(g.(isPrivate := b))
    case SetName(s) => Ok(g.(name := s))
    case SetDescription(o) => Ok(g.(description := o))
  }

  /**
    `schema.model_dump()` as written: every field of UpdateGroupSchema is
    declared without a default, so every schema holds all four, and the dump
    starts with owner_id, null or not.  The setattr on owner_id raises, so the
    items after it, listed here as Dump lists them, are never applied.
  */
  function DumpAsWritten(schema: UpdateGroupSchema): (ps: seq<FieldPatch>)
    ensures ps != [] && PatchKey(ps[0]) == "owner_id"
  {
    [SetOwnerId(schema.ownerId)] + Dump(schema.(ownerId := None))
  }

  /** The setattr loop: it stops at the first owner_id and otherwise keeps the group's id. */
  function SetAttrs(g: Group, ps: seq<FieldPatch>): (r: Result<Group, Error>)
    ensures r.Err? <==> exists i :: 0 <= i < |ps| && PatchKey(ps[i]) == "owner_id"
    ensures r.Err? ==> r.error == NoSuchField
    ensures r.Ok? ==> r.value.id == g.id
    decreases |ps|
  {
    if ps == [] then Ok(g)
    else match SetAttr(g, ps[0])
      case Err(e) => Err(e)
      case Ok(g1) =>
        assert forall i :: 1 <= i < |ps| ==> ps[i] == ps[1..][i - 1];
        SetAttrs(g1, ps[1..])
  }

  /** The group with every given field replaced: the reference for the setattr loop. */
  function Patched(g: Group, schema: UpdateGroupSchema): Group
  {
    Group(g.id,
          if schema.name.Some? then schema.name.value else g.name,
          if schema.description.Some? then schema.description.value else g.description,
          if schema.isPrivate.Some? then schema.isPrivate.value else g.isPrivate)
  }

  // ---- the operations -----------------------------------------------------

  /** `create_group`: persist the group, then its owner; not atomic. */
  function CreateGroup(d: Db, userId: Uuid, schema: CreateGroupSchema, groupId: Uuid, memberId: Uuid)
    : (o: Outcome<Group>)
    requires d.Valid()
    ensures o.db.Valid()
    ensures o.db.requests == d.requests
  {
    var group := NewGroup(groupId, schema.name, schema.description, schema.isPrivate);
    var member := NewGroupMember(memberId, userId, group.id, isOwner := true);
    var w1 := Persisted(d.groups, group.id, group);
    if w1.result.Err? then Fail(d, w1.result.error)
    else
      var d1 := d.(groups := w1.table);
      var w2 := Persisted(d1.members, member.id, member);
      if w2.result.Err? then Fail(d1, w2.result.error)
      else Outcome(d1.(members := w2.table), Ok(group))
  }

  /** `update_group` as intended: the setattr loop runs over the fields given. */
  function UpdateGroup(d: Db, requestUserId: Uuid, groupId: Uuid, schema: UpdateGroupSchema): (o: Outcome<()>)
    requires d.Valid()
    ensures o.db.Valid()
    ensures o.db.members == d.members && o.db.requests == d.requests
    ensures o.result.Err? ==> o.db == d
  {
    match Lookup(d.groups, groupId)
    case Err(e) => Fail(d, e)
    case Ok(group) =>
      match MemberOf(d.members, requestUserId, groupId)
      case Err(_) => Fail(d, NotAGroupMember)
      case Ok(member) =>
        if !member.isOwner then Fail(d, NotAGroupOwner)
        else match SetAttrs(group, Dump(schema))
          case Err(e) => Fail(d, e)
          case Ok(updated) => Outcome(d.(groups := d.groups.Set(updated.id, updated)), Ok(()))
  }

  /** `update_group` as written: the setattr loop runs over DumpAsWritten. */
  function UpdateGroupAsWritten(d: Db, requestUserId: Uuid, groupId: Uuid, schema: UpdateGroupSchema): (o: Outcome<()>)
    requires d.Valid()
    ensures o.db.members == d.members && o.db.requests == d.requests
  {
    match Lookup(d.groups, groupId)
    case Err(e) => Fail(d, e)
    case Ok(group) =>
      match MemberOf(d.members, requestUserId, groupId)
      case Err(_) => Fail(d, NotAGroupMember)
      case Ok(member) =>
        if !member.isOwner then Fail(d, NotAGroupOwner)
        else match SetAttrs(group, DumpAsWritten(schema))
          case Err(e) => Fail(d, e)
          case Ok(updated) => Outcome(d.(groups := d.groups.Set(updated.id, updated)), Ok(()))
  }

  /** `delete_group`: the group's members, then its requests, then the group. */
  function DeleteGroup(d: Db, requestUserId: Uuid, groupId: Uuid): (o: Outcome<()>)
    requires d.Valid()
    ensures o.db.Valid()
  {
    match Lookup(d.groups, groupId)
    case Err(e) => Fail(d, e)
    case Ok(group) =>
      match MemberOf(d.members, requestUserId, groupId)
      case Err(_) => Fail(d, NotAGroupMember)
      case Ok(member) =>
        if !member.isOwner then Fail(d, NotAGroupOwner)
        else
          DeleteByGroupIdRows(d, groupId);
          var d1 := d.(members := MembersWithoutGroup(d.members, groupId));
          var d2 := d1.(requests := RequestsWithoutGroup(d1.requests, groupId));
          var w := Deleted(d2.groups, group.id);
          Outcome(d2.(groups := w.table), w.result)
  }

  function GetGroup(d: Db, groupId: Uuid): (o: Outcome<Group>)
    ensures o.db == d
  {
    Outcome(d, Lookup(d.groups, groupId))
  }

  function GetGroups(d: Db, inputFilters: Option<GroupInputFilters>): (o: Outcome<seq<Group>>)
    requires d.Valid()
    ensures o.db == d
  {
    var input := if inputFilters.None? then GroupInputFilters() else inputFilters.value;
    Outcome(d, Listed(ManyOf(d.groups, Some(GroupEntries(GroupFilterSetOf(input))), GroupFields)))
  }

  /** `get_groups` as written: the filter set goes through the `get_filters` that raises TypeError. */
  function GetGroupsAsWritten(d: Db, inputFilters: Option<GroupInputFilters>): (o: Outcome<seq<Group>>)
    requires d.Valid()
    ensures o.db == d
  {
    var input := if inputFilters.None? then GroupInputFilters() else inputFilters.value;
    Outcome(d, Listed(ManyOfAsWritten(d.groups, Some(GroupEntries(GroupFilterSetOf(input))), GroupFields)))
  }

  function GetGroupsForUser(d: Db, userId: Uuid): (o: Outcome<seq<Group>>)
    requires d.Valid()
    ensures o.db == d
  {
    Outcome(d, GroupsForUser(d, userId))
  }

  /**
    `create_group_request` as written: `GroupRequest(user_id=..., group_id=...,
    **schema.model_dump())` passes user_id and group_id twice, since the
    schema declares them too, and Python raises TypeError before anything is
    written.
  */
  function CreateGroupRequestAsWritten(d: Db, userId: Uuid, groupId: Uuid, schema: CreateGroupRequestSchema,
                                       requestId: Uuid): (o: Outcome<GroupRequest>)
    requires d.Valid()
    ensures o.db == d
  {
    if PendingOf(d.requests, userId, groupId).Ok? then Fail(d, AlreadyRequestedToJoinGroup)
    else if MemberOf(d.members, userId, groupId).Ok? then Fail(d, AlreadyAGroupMember)
    else Fail(d, DuplicateKeyword)
  }

  /** `create_group_request` as intended: the request takes only its message from the schema. */
  function CreateGroupRequest(d: Db, userId: Uuid, groupId: Uuid, schema: CreateGroupRequestSchema,
                              requestId: Uuid): (o: Outcome<GroupRequest>)
    requires d.Valid()
    ensures o.db.Valid()
    ensures o.db.groups == d.groups && o.db.members == d.members
    ensures o.result.Err? ==> o.db == d
  {
    if PendingOf(d.requests, userId, groupId).Ok? then Fail(d, AlreadyRequestedToJoinGroup)
    else if MemberOf(d.members, userId, groupId).Ok? then Fail(d, AlreadyAGroupMember)
    else
      var request := NewGroupRequest(requestId, userId, groupId, schema.message);
      var w := Persisted(d.requests, request.id, request);
      if w.result.Err? then Fail(d, w.result.error)
      else Outcome(d.(requests := w.table), Ok(request))
  }

  function CreateGroupMember(d: Db, schema: CreateGroupMemberSchema, memberId: Uuid): (o: Outcome<GroupMember>)
    requires d.Valid()
    ensures o.db.Valid()
    ensures o.db.groups == d.groups && o.db.requests == d.requests
    ensures o.result.Err? ==> o.db == d
  {
    match Lookup(d.groups, schema.groupId)
    case Err(e) => Fail(d, e)
    case Ok(_) =>
      if MemberOf(d.members, schema.userId, schema.groupId).Ok? then Fail(d, AlreadyAGroupMember)
      else
        var member := NewGroupMember(memberId, schema.userId, schema.groupId, schema.isAdmin);
        var w := Persisted(d.members, member.id, member);
        if w.result.Err? then Fail(d, w.result.error)
        else Outcome(d.(members := w.table), Ok(member))
  }

  /**
    `update_group_request` as written: `CreateGroupMemberSchema(user_id=...,
    group_id=...)` leaves out is_admin, which the schema declares without a
    default, so pydantic raises a ValidationError after the new status has
    been stored, and no member is created.
  */
  function UpdateGroupRequestAsWritten(d: Db, requestUserId: Uuid, groupId: Uuid, requestId: Uuid,
                                       schema: UpdateGroupRequestSchema): (o: Outcome<()>)
    requires d.Valid()
    ensures o.db.Valid()
    ensures o.db.groups == d.groups && o.db.members == d.members
  {
    match Lookup(d.requests, requestId)
    case Err(e) => Fail(d, e)
    case Ok(request) =>
      if request.groupId != groupId then Fail(d, DoesNotExist)
      else match MemberOf(d.members, requestUserId, groupId)
        case Err(e) => Fail(d, e)
        case Ok(member) =>
          if !(member.isOwner || member.isAdmin) then Fail(d, NotAGroupOwnerOrAdmin)
          else if request.status != Pending then Fail(d, RequestNotPending)
          else
            var updated := request.(status := schema.status);
            var d1 := d.(requests := d.requests.Set(updated.id, updated));
            if schema.status == Declined then Outcome(d1, Ok(()))
            else Fail(d1, MissingField)
  }

  /**
    `update_group_request` as intended.  The member lookup is not guarded, so
    a caller with no membership gets its DoesNotExist.  Every status except
    DECLINED, PENDING included, goes on to create a member, who is not an
    admin.
  */
  function UpdateGroupRequest(d: Db, requestUserId: Uuid, groupId: Uuid, requestId: Uuid,
                              schema: UpdateGroupRequestSchema, memberId: Uuid): (o: Outcome<()>)
    requires d.Valid()
    ensures o.db.Valid()
    ensures o.db.groups == d.groups
  {
    match Lookup(d.requests, requestId)
    case Err(e) => Fail(d, e)
    case Ok(request) =>
      if request.groupId != groupId then Fail(d, DoesNotExist)
      else match MemberOf(d.members, requestUserId, groupId)
        case Err(e) => Fail(d, e)
        case Ok(member) =>
          if !(member.isOwner || member.isAdmin) then Fail(d, NotAGroupOwnerOrAdmin)
          else if request.status != Pending then Fail(d, RequestNotPending)
          else
            var updated := request.(status := schema.status);
            var d1 := d.(requests := d.requests.Set(updated.id, updated));
            if schema.status == Declined then Outcome(d1, Ok(()))
            else
              var o := CreateGroupMember(d1, CreateGroupMemberSchema(updated.userId, updated.groupId, false), memberId);
              Outcome(o.db, if o.result.Ok? then Ok(()) else Err(o.result.error))
  }

  /** `delete_group_request`: a foreign group and a foreign author raise the same DoesNotExist. */
  function DeleteGroupRequest(d: Db, requestUserId: Uuid, groupId: Uuid, requestId: Uuid): (o: Outcome<()>)
    requires d.Valid()
    ensures o.db.Valid()
    ensures o.db.groups == d.groups && o.db.members == d.members
  {
    match Lookup(d.requests, requestId)
    case Err(e) => Fail(d, e)
    case Ok(request) =>
      if request.groupId != groupId then Fail(d, DoesNotExist)
      else if request.userId != requestUserId then Fail(d, DoesNotExist)
      else if request.status != Pending then Fail(d, RequestNotPending)
      else
        var w := Deleted(d.requests, request.id);
        Outcome(d.(requests := w.table), w.result)
  }

  function GetGroupRequest(d: Db, requestUserId: Uuid, groupId: Uuid, requestId: Uuid): (o: Outcome<GroupRequest>)
    requires d.Valid()
    ensures o.db == d
  {
    match Lookup(d.requests, requestId)
    case Err(e) => Fail(d, e)
    case Ok(request) =>
      if request.groupId != groupId then Fail(d, DoesNotExist)
      else match MemberOf(d.members, requestUserId, groupId)
        case Ok(member) =>
          if !(member.isAdmin || member.isOwner) then Fail(d, NotAGroupOwnerOrAdmin)
          else Outcome(d, Ok(request))
        case Err(_) =>
          if request.userId != requestUserId then Fail(d, NotARequestOwner)
          else Outcome(d, Ok(request))
  }

  /** The pending requests of a group, narrowed to the caller's own when the caller is not a member. */
  function GetGroupRequestsForGroup(d: Db, requestUserId: Uuid, groupId: Uuid): (o: Outcome<seq<GroupRequest>>)
    requires d.Valid()
    ensures o.db == d
  {
    var filterSet := GroupRequestFilterSet(Some(groupId), None, Some(Pending));
    match MemberOf(d.members, requestUserId, groupId)
    case Ok(member) =>
      if !(member.isAdmin || member.isOwner) then Fail(d, NotAGroupOwnerOrAdmin)
      else Outcome(d, Listed(ManyOf(d.requests, Some(RequestEntries(filterSet)), RequestFields)))
    case Err(_) =>
      var narrowed := filterSet.(userIdEq := Some(requestUserId));
      Outcome(d, Listed(ManyOf(d.requests, Some(RequestEntries(narrowed)), RequestFields)))
  }

  /** `get_group_requests_for_group` as written, over the `get_filters` that raises TypeError. */
  function GetGroupRequestsForGroupAsWritten(d: Db, requestUserId: Uuid, groupId: Uuid): (o: Outcome<seq<GroupRequest>>)
    requires d.Valid()
    ensures o.db == d
  {
    var filterSet := GroupRequestFilterSet(Some(groupId), None, Some(Pending));
    match MemberOf(d.members, requestUserId, groupId)
    case Ok(member) =>
      if !(member.isAdmin || member.isOwner) then Fail(d, NotAGroupOwnerOrAdmin)
      else Outcome(d, Listed(ManyOfAsWritten(d.requests, Some(RequestEntries(filterSet)), RequestFields)))
    case Err(_) =>
      var narrowed := filterSet.(userIdEq := Some(requestUserId));
      Outcome(d, Listed(ManyOfAsWritten(d.requests, Some(RequestEntries(narrowed)), RequestFields)))
  }

  /** `get_group_requests_for_user` as written, over the `get_filters` that raises TypeError. */
  function GetGroupRequestsForUserAsWritten(d: Db, userId: Uuid): (o: Outcome<seq<GroupRequest>>)
    requires d.Valid()
    ensures o.db == d
  {
    var filterSet := GroupRequestFilterSet(None, Some(userId), Some(Pending));
    Outcome(d, Listed(ManyOfAsWritten(d.requests, Some(RequestEntries(filterSet)), RequestFields)))
  }

  function GetGroupRequestsForUser(d: Db, userId: Uuid): (o: Outcome<seq<GroupRequest>>)
    requires d.Valid()
    ensures o.db == d
  {
    var filterSet := GroupRequestFilterSet(None, Some(userId), Some(Pending));
    Outcome(d, Listed(ManyOf(d.requests, Some(RequestEntries(filterSet)), RequestFields)))
  }

  /** `update_group_member`: owner only; no write when is_admin already has the requested value. */
  function UpdateGroupMember(d: Db, requestUserId: Uuid, groupId: Uuid, memberId: Uuid,
                             schema: UpdateGroupMemberSchema): (o: Outcome<()>)
    requires d.Valid()
    ensures o.db.Valid()
    ensures o.db.groups == d.groups && o.db.requests == d.requests
    ensures o.result.Err? ==> o.db == d
  {
    match Lookup(d.groups, groupId)
    case Err(e) => Fail(d, e)
    case Ok(_) =>
      match MemberOf(d.members, requestUserId, groupId)
      case Err(_) => Fail(d, NotAGroupMember)
      case Ok(member) =>
        if !member.isOwner then Fail(d, NotAGroupOwner)
        else match Lookup(d.members, memberId)
          case Err(e) => Fail(d, e)
          case Ok(target) =>
            if target.isAdmin == schema.isAdmin then Outcome(d, Ok(()))
            else
              var updated := target.(isAdmin := schema.isAdmin);
              Outcome(d.(members := d.members.Set(updated.id, updated)), Ok(()))
  }

  /**
    `change_group_owner`.  The target is fetched before the owner check and
    is never checked to belong to the group.
  */
  function ChangeGroupOwner(d: Db, requestUserId: Uuid, groupId: Uuid, memberId: Uuid): (o: Outcome<()>)
    requires d.Valid()
    ensures o.db.Valid()
    ensures o.db.groups == d.groups && o.db.requests == d.requests
    ensures o.result.Err? ==> o.db == d
  {
    match Lookup(d.groups, groupId)
    case Err(e) => Fail(d, e)
    case Ok(_) =>
      match MemberOf(d.members, requestUserId, groupId)
      case Err(_) => Fail(d, NotAGroupMember)
      case Ok(member) =>
        match Lookup(d.members, memberId)
        case Err(e) => Fail(d, e)
        case Ok(target) =>
          if !member.isOwner then Fail(d, NotAGroupOwner)
          else if target.userId == requestUserId then Fail(d, AlreadyAGroupOwner)
          else
            var demoted := member.(isOwner := false);
            var promoted := target.(isOwner := true);
            var ms := d.members.Set(demoted.id, demoted);
            Outcome(d.(members := ms.Set(promoted.id, promoted)), Ok(()))
  }

  /** `delete_group_member`; the target is never checked to belong to the group. */
  function DeleteGroupMember(d: Db, requestUserId: Uuid, groupId: Uuid, memberId: Uuid): (o: Outcome<()>)
    requires d.Valid()
    ensures o.db.Valid()
    ensures o.db.groups == d.groups && o.db.requests == d.requests
  {
    match Lookup(d.groups, groupId)
    case Err(e) => Fail(d, e)
    case Ok(_) =>
      match MemberOf(d.members, requestUserId, groupId)
      case Err(_) => Fail(d, NotAGroupMember)
      case Ok(member) =>
        if !(member.isAdmin || member.isOwner) then Fail(d, NotAGroupOwnerOrAdmin)
        else match Lookup(d.members, memberId)
          case Err(e) => Fail(d, e)
          case Ok(target) =>
            if target.isOwner then Fail(d, CannotDeleteAGroupOwner)
            else if target.isAdmin && !member.isOwner then Fail(d, NotAGroupOwner)
            else
              var w := Deleted(d.members, target.id);
              Outcome(d.(members := w.table), w.result)
  }

  /** `leave_group`: the membership lookup is not guarded, so a non-member gets DoesNotExist. */
  function LeaveGroup(d: Db, requestUserId: Uuid, groupId: Uuid): (o: Outcome<()>)
    requires d.Valid()
    ensures o.db.Valid()
    ensures o.db.groups == d.groups && o.db.requests == d.requests
  {
    match MemberOf(d.members, requestUserId, groupId)
    case Err(e) => Fail(d, e)
    case Ok(member) =>
      if member.isOwner then Fail(d, CannotLeaveGroupAsOwner)
      else
        var w := Deleted(d.members, member.id);
        Outcome(d.(members := w.table), w.result)
  }

  function GetGroupMember(d: Db, requestUserId: Uuid, groupId: Uuid, memberId: Uuid): (o: Outcome<GroupMember>)
    requires d.Valid()
    ensures o.db == d
  {
    match Lookup(d.groups, groupId)
    case Err(e) => Fail(d, e)
    case Ok(group) =>
      if MemberOf(d.members, requestUserId, groupId).Err? && group.isPrivate then Fail(d, NotAGroupMember)
      else match Lookup(d.members, memberId)
        case Err(e) => Fail(d, e)
        case Ok(member) =>
          if member.groupId != groupId then Fail(d, DoesNotExist)
          else Outcome(d, Ok(member))
  }

  function GetGroupMembers(d: Db, requestUserId: Uuid, groupId: Uuid, filters: Option<GroupMemberInputFilters>)
    : (o: Outcome<seq<GroupMember>>)
    requires d.Valid()
    ensures o.db == d
  {
    var input := if filters.None? then GroupMemberInputFilters() else filters.value;
    var filterSet := MemberFilterSetFor(groupId, input);
    match Lookup(d.groups, groupId)
    case Err(e) => Fail(d, e)
    case Ok(group) =>
      if MemberOf(d.members, requestUserId, groupId).Err? && group.isPrivate then Fail(d, NotAGroupMember)
      else Outcome(d, Listed(ManyOf(d.members, Some(MemberEntries(filterSet)), MemberFields)))
  }

  /** `get_group_members` as written, over the `get_filters` that raises TypeError. */
  function GetGroupMembersAsWritten(d: Db, requestUserId: Uuid, groupId: Uuid, filters: Option<GroupMemberInputFilters>)
    : (o: Outcome<seq<GroupMember>>)
    requires d.Valid()
    ensures o.db == d
  {
    var input := if filters.None? then GroupMemberInputFilters() else filters.value;
    var filterSet := MemberFilterSetFor(groupId, input);
    match Lookup(d.groups, groupId)
    case Err(e) => Fail(d, e)
    case Ok(group) =>
      if MemberOf(d.members, requestUserId, groupId).Err? && group.isPrivate then Fail(d, NotAGroupMember)
      else Outcome(d, Listed(ManyOfAsWritten(d.members, Some(MemberEntries(filterSet)), MemberFields)))
  }
}
