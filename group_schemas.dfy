/**
  The input schemas of src/core/schemas/group.py and the bounds of
  src/constants.py.  Each schema is validated by a function that either
  returns the schema or the list of fields that failed, in declaration order,
  as pydantic collects them.  For an update schema an absent field (None)
  means "not given", as the service tests use it; ValidateUpdateGroupAsWritten
  is the schema as declared, which requires every field.
*/
module GroupSchemas {
  import opened Wrappers
  import opened GroupModels

  const MaxGroupNameLength: nat := 50
  const MaxGroupDescriptionLength: nat := 1000
  const MaxGroupRequestMessageLength: nat := 250

  datatype ValidationError = ValidationError(fields: seq<string>)

  datatype CreateGroupSchema = CreateGroupSchema(
    ownerId: Uuid, isPrivate: bool, name: string, description: Option<string>)

  datatype UpdateGroupSchema = UpdateGroupSchema(
    ownerId: Option<bool>, isPrivate: Option<bool>, name: Option<string>,
    description: Option<Option<string>>)

  datatype CreateGroupRequestSchema = CreateGroupRequestSchema(
    userId: Uuid, groupId: Uuid, message: Option<string>)

  datatype UpdateGroupRequestSchema = UpdateGroupRequestSchema(status: GroupRequestStatus)

  datatype CreateGroupMemberSchema = CreateGroupMemberSchema(userId: Uuid, groupId: Uuid, isAdmin: bool)

  datatype UpdateGroupMemberSchema = UpdateGroupMemberSchema(isAdmin: bool)

  predicate FitsOptional(s: Option<string>, bound: nat)
  {
    s.None? || |s.value| <= bound
  }

  function Check(ok: bool, field: string): seq<string>
  {
    if ok then [] else [field]
  }

  function ValidateCreateGroup(ownerId: Uuid, name: string, description: Option<string> := None,
                               isPrivate: bool := false): (r: Result<CreateGroupSchema, ValidationError>)
    ensures r.Ok? <==> |name| <= MaxGroupNameLength && FitsOptional(description, MaxGroupDescriptionLength)
    ensures r.Ok? ==> r.value == CreateGroupSchema(ownerId, isPrivate, name, description)
    ensures r.Err? ==> ("name" in r.error.fields <==> |name| > MaxGroupNameLength)
    ensures r.Err? ==> ("description" in r.error.fields <==> !FitsOptional(description, MaxGroupDescriptionLength))
  {
    var bad := Check(|name| <= MaxGroupNameLength, "name")
             + Check(FitsOptional(description, MaxGroupDescriptionLength), "description");
    if bad == [] then Ok(CreateGroupSchema(ownerId, isPrivate, name, description))
    else Err(ValidationError(bad))
  }

  function ValidateUpdateGroup(ownerId: Option<bool>, isPrivate: Option<bool>, name: Option<string>,
                               description: Option<Option<string>>): (r: Result<UpdateGroupSchema, ValidationError>)
    ensures r.Ok? <==> FitsOptional(name, MaxGroupNameLength)
                       && (description.Some? ==> FitsOptional(description.value, MaxGroupDescriptionLength))
    ensures r.Ok? ==> r.value == UpdateGroupSchema(ownerId, isPrivate, name, description)
  {
    var bad := Check(FitsOptional(name, MaxGroupNameLength), "name")
             + Check(description.Some? ==> FitsOptional(description.value, MaxGroupDescriptionLength), "description");
    if bad == [] then Ok(UpdateGroupSchema(ownerId, isPrivate, name, description))
    else Err(ValidationError(bad))
  }

  /**
    The validation of UpdateGroupSchema as written: none of its four fields
    has a default, so pydantic v2 requires each of them, though each may be
    null.  A field of the body is None when it is left out and Some(v) when
    given, v being None for an explicit null.  Missing fields and fields over
    their bound are named in declaration order.
  */
  function ValidateUpdateGroupAsWritten(ownerId: Option<Option<bool>>, isPrivate: Option<Option<bool>>,
                                        name: Option<Option<string>>, description: Option<Option<string>>)
    : (r: Result<UpdateGroupSchema, ValidationError>)
    ensures r.Ok? <==> ownerId.Some? && isPrivate.Some? && name.Some? && description.Some?
                       && FitsOptional(name.value, MaxGroupNameLength)
                       && FitsOptional(description.value, MaxGroupDescriptionLength)
    ensures r.Ok? ==> r.value == UpdateGroupSchema(ownerId.value, isPrivate.value, name.value, description)
    ensures r.Err? ==> ("owner_id" in r.error.fields <==> ownerId.None?)
    ensures r.Err? ==> ("is_private" in r.error.fields <==> isPrivate.None?)
    ensures r.Err? ==> ("name" in r.error.fields <==> name.None? || !FitsOptional(name.value, MaxGroupNameLength))
    ensures r.Err? ==> ("description" in r.error.fields <==>
                          description.None? || !FitsOptional(description.value, MaxGroupDescriptionLength))
  {
    var bad := Check(ownerId.Some?, "owner_id") + Check(isPrivate.Some?, "is_private")
             + Check(name.Some? && FitsOptional(name.value, MaxGroupNameLength), "name")
             + Check(description.Some? && FitsOptional(description.value, MaxGroupDescriptionLength), "description");
    if bad == [] then Ok(UpdateGroupSchema(ownerId.value, isPrivate.value, name.value, description))
    else Err(ValidationError(bad))
  }

  /**
    Given all four fields, the validation as written is the intended one:
    they accept the same bodies, build the same schema and name the same
    failing fields.  Leaving any field out is refused as written and never
    as intended on that account.
  */
  lemma UpdateGroupAgreesWhenComplete(ownerId: Option<bool>, isPrivate: Option<bool>, name: Option<string>,
                                      description: Option<string>)
    ensures ValidateUpdateGroupAsWritten(Some(ownerId), Some(isPrivate), Some(name), Some(description))
         == ValidateUpdateGroup(ownerId, isPrivate, name, Some(description))
  {
    var n := Check(FitsOptional(name, MaxGroupNameLength), "name");
    var e := Check(FitsOptional(description, MaxGroupDescriptionLength), "description");
    assert Check(true, "owner_id") + Check(true, "is_private") + n + e == n + e;
  }

  /** A body that gives only a name: accepted as intended, refused as written for the three missing fields. */
  lemma OmittedFieldWitness()
    ensures ValidateUpdateGroup(None, None, Some("renamed"), None)
         == Ok(UpdateGroupSchema(None, None, Some("renamed"), None))
    ensures ValidateUpdateGroupAsWritten(None, None, Some(Some("renamed")), None)
         == Err(ValidationError(["owner_id", "is_private", "description"]))
  {
    assert |"renamed"| <= MaxGroupNameLength;
    assert ["owner_id"] + ["is_private"] + [] + ["description"] == ["owner_id", "is_private", "description"];
  }

  function ValidateCreateGroupRequest(userId: Uuid, groupId: Uuid, message: Option<string> := None)
    : (r: Result<CreateGroupRequestSchema, ValidationError>)
    ensures r.Ok? <==> FitsOptional(message, MaxGroupRequestMessageLength)
    ensures r.Ok? ==> r.value == CreateGroupRequestSchema(userId, groupId, message)
    ensures r.Err? ==> r.error.fields == ["message"]
  {
    if FitsOptional(message, MaxGroupRequestMessageLength) then Ok(CreateGroupRequestSchema(userId, groupId, message))
    else Err(ValidationError(["message"]))
  }

  /** A name of 51 characters is refused, one of 50 accepted. */
  lemma NameBound(ownerId: Uuid, name: string)
    ensures |name| == MaxGroupNameLength + 1 ==> ValidateCreateGroup(ownerId, name).Err?
    ensures |name| == MaxGroupNameLength ==> ValidateCreateGroup(ownerId, name).Ok?
    ensures ValidateCreateGroup(ownerId, name).Ok? ==> !ValidateCreateGroup(ownerId, name).value.isPrivate
  {
  }
}
