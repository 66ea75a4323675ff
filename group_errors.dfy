/**
  The exceptions the group service and its repositories raise
  (src/core/services/group.py imports the service ones; the repositories
  raise DoesNotExistError and AlreadyExistsError).
*/
module GroupErrors {
  import opened FilterBase

  datatype Error =
    | DoesNotExist
    | AlreadyExists
    | AlreadyAGroupMember
    | AlreadyAGroupOwner
    | AlreadyRequestedToJoinGroup
    | CannotDeleteAGroupOwner
    | CannotLeaveGroupAsOwner
    | NotAGroupMember
    | NotAGroupOwner
    | NotAGroupOwnerOrAdmin
    | NotARequestOwner
    | RequestNotPending
    | KeyError             // a dict lookup on a missing key
    | NoSuchField          // pydantic's ValueError when setattr names a field the record lacks
    | DuplicateKeyword     // TypeError: a keyword argument given twice
    | MissingField         // pydantic's ValidationError when a required field is not given
    | FilterFailed(cause: FilterError)  // an exception raised while building or applying filters
}
