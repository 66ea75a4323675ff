/**
  The group records of src/core/models/group.py (with the status enum of
  src/core/enums/group.py and the id of src/core/models/base.py).  Records
  refer to users and groups only by id.  The generated id is an argument:
  the caller supplies a fresh one where the source calls uuid4.
*/
module GroupModels {
  import opened Wrappers
  import opened FilterBase

  type Uuid = nat

  datatype GroupRequestStatus = Pending | Accepted | Declined

  /** The StrEnum value of each status. */
  function StatusValue(s: GroupRequestStatus): string
  {
    match s
    case Pending => "pending"
    case Accepted => "accepted"
    case Declined => "declined"
  }

  datatype Group = Group(id: Uuid, name: string, description: Option<string>, isPrivate: bool)

  datatype GroupMember = GroupMember(id: Uuid, userId: Uuid, groupId: Uuid, isAdmin: bool, isOwner: bool)

  datatype GroupRequest = GroupRequest(
    id: Uuid, userId: Uuid, groupId: Uuid, message: Option<string>, status: GroupRequestStatus)

  /** `Group(...)` with the model's defaults. */
  function NewGroup(id: Uuid, name: string, description: Option<string> := None, isPrivate: bool := false): Group
  {
    Group(id, name, description, isPrivate)
  }

  /** `GroupMember(...)` with the model's defaults. */
  function NewGroupMember(id: Uuid, userId: Uuid, groupId: Uuid, isAdmin: bool := false, isOwner: bool := false): GroupMember
  {
    GroupMember(id, userId, groupId, isAdmin, isOwner)
  }

  /** `GroupRequest(...)` with the model's defaults. */
  function NewGroupRequest(id: Uuid, userId: Uuid, groupId: Uuid, message: Option<string> := None,
                           status: GroupRequestStatus := Pending): GroupRequest
  {
    GroupRequest(id, userId, groupId, message, status)
  }

  /** A group defaults to no description and public; a member to neither admin nor owner; a request to pending. */
  lemma Defaults(id: Uuid, name: string, userId: Uuid, groupId: Uuid)
    ensures NewGroup(id, name).description == None && !NewGroup(id, name).isPrivate
    ensures !NewGroupMember(id, userId, groupId).isAdmin && !NewGroupMember(id, userId, groupId).isOwner
    ensures NewGroupRequest(id, userId, groupId).status == Pending
    ensures NewGroupRequest(id, userId, groupId).message == None
  {
  }

  function OptionalString(s: Option<string>): Value
  {
    if s.Some? then VStr(s.value) else VNone
  }

  /** The attributes a filter may read off each record. */
  function GroupFields(g: Group): (m: map<string, Value>)
    ensures m.Keys == {"id", "name", "description", "is_private"}
  {
    map["id" := VUuid(g.id), "name" := VStr(g.name),
        "description" := OptionalString(g.description), "is_private" := VBool(g.isPrivate)]
  }

  function MemberFields(m: GroupMember): (r: map<string, Value>)
    ensures r.Keys == {"id", "user_id", "group_id", "is_admin", "is_owner"}
  {
    map["id" := VUuid(m.id), "user_id" := VUuid(m.userId), "group_id" := VUuid(m.groupId),
        "is_admin" := VBool(m.isAdmin), "is_owner" := VBool(m.isOwner)]
  }

  function RequestFields(q: GroupRequest): (r: map<string, Value>)
    ensures r.Keys == {"id", "user_id", "group_id", "message", "status"}
  {
    map["id" := VUuid(q.id), "user_id" := VUuid(q.userId), "group_id" := VUuid(q.groupId),
        "message" := OptionalString(q.message), "status" := VStr(StatusValue(q.status))]
  }

  /** Distinct statuses have distinct string values, so an equality filter on status is exact. */
  lemma StatusValueInjective(a: GroupRequestStatus, b: GroupRequestStatus)
    ensures StatusValue(a) == StatusValue(b) <==> a == b
  {
  }
}
