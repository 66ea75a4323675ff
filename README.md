# Group membership core of netizen2, in Dafny

netizen2 is a small social web service. Users register and confirm their
e-mail address, then create groups. They ask to join other groups, and a
group's owner and admins accept or decline those requests. This project
covers the core behind that:

- **Users** (`users.dfy`): the account state machine of
  `src/core/models/user.py`. It covers activation, deactivation, e-mail
  confirmation with a token, and password reset with a token that expires
  one hour after it is issued.
- **User schemas** (`user_schemas.dfy`): the date-of-birth validator and the
  password rules of `src/core/schemas/user.py`.
- **Group records and schemas** (`group_models.dfy`, `group_schemas.dfy`):
  the groups, memberships and join requests, with their defaults. Also the
  create/update schemas with their length bounds (50 for a name, 1000 for a
  description, 250 for a request message).
- **Filters** (`filter_base.dfy`, `legacy_filters.dfy`, `group_filters.dfy`):
  - the filter-set engine that turns the declared fields `field__op` into
    (field, operator, value) triples and evaluates them the way Python
    compares values;
  - the older engine of `src/core/filters.py`;
  - for both engines, the operator lookup as written, which raises TypeError
    under pydantic v2 (see Findings);
  - the three group filter sets.
- **Repositories** (`tables.dfy`, `fake_repositories.dfy`,
  `legacy_fake_repositories.dfy`): the in-memory repositories the service is
  exercised against. A Python dict keeps insertion order, and `Table` models
  exactly that. The current repositories share one `FakeDatabase`. The older
  ones each own their own dict.
- **Group service** (`group_rules.dfy`, `group_service.dfy`,
  `group_properties.dfy`):
  - `GroupRules` states every operation of `GroupService` as a function from
    the database before the call to the database after it, together with
    the result or the exception raised.
  - The class `GroupService` performs the same steps through the repository
    objects, and each of its methods is proved to agree with that function.
  - `GroupProperties` proves what the operations promise: the order in which
    errors are raised, who may do what, exactly which rows each operation
    writes, and what the listings return.

The generated ids (`uuid4`), the clock (`datetime.now`), the password hash
and the result of e-mail validation are parameters. Every exception is a
value of a `Result`.

## Model

| member | source | states |
|---|---|---|
| Users.User.constructor | src/core/models/user.py:14-25 | a new user is inactive, with no tokens, no expiry and no names or birth date |
| Users.User.GenerateEmailConfirmationToken | src/core/models/user.py:27-29 | stores the new token as the confirmation token, returns it, and changes nothing else |
| Users.User.GeneratePasswordResetToken | src/core/models/user.py:31-34 | stores the new reset token with an expiry of now plus 3600 seconds, and returns it |
| Users.User.Activate | src/core/models/user.py:36-40 | raises AlreadyActive on an active user and changes nothing; otherwise it sets is_active |
| Users.User.ConfirmEmail | src/core/models/user.py:42-47 | a wrong token raises InvalidToken; the right token is cleared, and then the user is activated |
| Users.User.Deactivate | src/core/models/user.py:49-53 | raises UserNotActive on an inactive user; otherwise it clears is_active |
| Users.User.ResetPassword | src/core/models/user.py:55-67 | checks the token, then the expiry; on success it stores the new hash and clears the token and its expiry |
| Users.User.GetEmailContext | src/core/models/user.py:69-76 | the context holds exactly the five keys, with the user's values |
| Users.EmailContext | src/core/models/user.py:69-76 | exactly first_name, last_name, email and the two tokens, each mapped to its field |
| Users.ActivateOutcome | src/core/models/user.py:36-40 | activation succeeds exactly on an inactive user; afterwards the user is active either way |
| Users.ActivationRoundTrip | src/core/models/user.py:36-53 | deactivate undoes activate, and the reverse |
| Users.ConfirmEmailOutcome | src/core/models/user.py:42-47 | a wrong token changes nothing; on an active user the token is cleared before AlreadyActive is raised |
| Users.NoTokenNoConfirmation | src/core/models/user.py:19-20 | a new account accepts no confirmation token and no reset token |
| Users.NewTokenInvalidatesOld | src/core/models/user.py:27-34 | after a token is generated again, the previous token is refused, for confirmation and for reset |
| Users.ConfirmEmailOnce | src/core/models/user.py:42-47 | after one confirmation every later one raises InvalidToken |
| Users.ResetPasswordOutcome | src/core/models/user.py:55-67 | the order of the checks; a missing expiry counts as expired; success changes only the hash and the reset fields |
| Users.ResetTokenLifetime | src/core/models/user.py:31-34 | a reset token issued at t is accepted exactly while now < t + 3600 |
| Users.ResetPasswordOnce | src/core/models/user.py:55-67 | after a successful reset every later reset raises InvalidToken |
| UserSchemas.ValidateDateOfBirth | src/core/schemas/user.py:18-35 | None passes; otherwise a date passes iff it is not after today, its year is ≥ 1900 and today's year minus its year is ≥ 18; the first failing check names the error |
| UserSchemas.DateOfBirthYearsOnly | src/core/schemas/user.py:30-33 | the age rule looks at years only: an accepted person is at least 17, everyone 18 or older born in or after 1900 is accepted, and a 17-year-old is accepted on 1 January |
| UserSchemas.ValidateCreateUserAsWritten | src/core/schemas/user.py:49-54 | raises KeyError("password") exactly when password is too short and repeat_password is long enough |
| UserSchemas.ValidateCreateUser | src/core/schemas/user.py:38-54 | accepts iff the birth date passes, the e-mail is valid, both passwords have ≥ 8 characters and are equal; otherwise it lists exactly the failing fields |
| UserSchemas.CreateUserAsWrittenAgrees | src/core/schemas/user.py:49-54 | the schema as written and the corrected one agree everywhere except on the KeyError inputs |
| UserSchemas.ShortPasswordWitness | src/core/schemas/user.py:40-54 | "pass"/"password" raises KeyError as written, and gives a ValidationError on password once corrected |
| UserSchemas.ValidateUpdateUser | src/core/schemas/user.py:57-60 | the birth-date rule applies only when a date is actually given |
| UserSchemas.SetFields | src/core/schemas/base.py:6-9 | the dump holds exactly the fields given, including those given as null |
| GroupModels.Defaults | src/core/models/group.py:7-26 | a group has no description and is public; a member is neither admin nor owner; a request is pending, with no message |
| GroupModels.GroupFields | src/core/models/group.py:7-10 | a group exposes exactly id, name, description and is_private to a filter |
| GroupModels.MemberFields | src/core/models/group.py:13-18 | a member exposes exactly id, user_id, group_id, is_admin and is_owner |
| GroupModels.RequestFields | src/core/models/group.py:21-26 | a request exposes exactly id, user_id, group_id, message and status |
| GroupModels.StatusValueInjective | src/core/enums/group.py:4-7 | two statuses have the same string value iff they are equal |
| GroupSchemas.ValidateCreateGroup | src/core/schemas/group.py:10-18 | accepts iff the name has ≤ 50 characters and any description ≤ 1000; each failing field is named |
| GroupSchemas.ValidateUpdateGroup | src/core/schemas/group.py:21-26 | as intended, a field left out is not given: accepts iff each given name and description fits its bound, and builds the schema from the given fields |
| GroupSchemas.ValidateUpdateGroupAsWritten | src/core/schemas/group.py:21-26 | as written every field is required: accepts iff all four are given (null allowed) and the name and description fit their bounds; each missing or too long field is named |
| GroupSchemas.UpdateGroupAgreesWhenComplete | src/core/schemas/group.py:21-26 | a body that gives all four fields gets the same result, schema or failing fields, from both validations |
| GroupSchemas.OmittedFieldWitness | src/core/schemas/group.py:21-26 | a body with only a name is accepted as intended and refused as written, naming owner_id, is_private and description |
| GroupSchemas.ValidateCreateGroupRequest | src/core/schemas/group.py:29-35 | accepts iff any message has ≤ 250 characters |
| GroupSchemas.NameBound | src/core/schemas/group.py:14 | a name of 51 characters is refused and one of 50 accepted; a new group is public by default |
| FilterBase.Compare | src/core/filters/base.py:33-40 | eq and ne are Python equality (bool equals int) and never raise; lt, le, gt and ge raise TypeError exactly when the two values have no order between them (numbers, strings and ids are ordered only among their own kind) |
| FilterBase.StrLessTotal | src/core/filters/base.py:33-40 | the order Python gives strings is a strict total order |
| FilterBase.CompareIntegers | src/core/filters/base.py:33-40 | on integers lt, le, gt and ge are the integer order and never raise |
| FilterBase.CompareStrings | src/core/filters/base.py:33-40 | on strings they are the lexicographic order, so ge is the negation of lt and le that of gt |
| FilterBase.Apply | src/core/filters/base.py:14-15 | a filter on an attribute the record lacks raises AttributeError; otherwise it compares the attribute with the value |
| FilterBase.AllPassEqualities | src/core/filters/base.py:14-15 | a list of equality filters on present fields passes exactly when every field equals its value |
| FilterBase.SplitDunder | src/core/filters/base.py:45 | `split("__")` gives at least one piece |
| FilterBase.SplitJoin | src/core/filters/base.py:45 | joining the pieces with `__` gives the key back |
| FilterBase.SplitNoDunder | src/core/filters/base.py:45 | a string without `__` does not split |
| FilterBase.SplitKey | src/core/filters/base.py:45 | `field__op` splits into field and op |
| FilterBase.GetOperator | src/core/filters/base.py:61-63 | the intended lookup succeeds exactly on eq, ne, lt, le, gt and ge |
| FilterBase.OperatorNames | src/core/filters/base.py:33-63 | as intended each operator is found under its own name; as written the lookup (`GetOperatorAsWritten`) raises TypeError for every one of them |
| FilterBase.GetFilters | src/core/filters/base.py:42-59 | the intended loop yields the filters of the explicitly set, non-None fields, or the first error |
| FilterBase.FiltersOfAsWritten | src/core/filters/base.py:42-63 | as written no filter is ever built: a success is always the empty list |
| FilterBase.FiltersOfAsWrittenRaises | src/core/filters/base.py:42-63 | as written get_filters succeeds only when nothing is dumped, agreeing then with the intended engine; otherwise the first dumped field raises ValueError for a key that does not split in two and TypeError for any other |
| FilterBase.EmptyFilterSet | src/core/filters/base.py:42-59 | an empty filter set yields no filters |
| FilterBase.FiltersOfWellFormed | src/core/filters/base.py:42-63 | with well-formed keys the intended engine never fails and yields one filter per dumped field, in declaration order; the engine as written raises TypeError as soon as anything is dumped |
| FilterBase.BadOperator | src/core/filters/base.py:46-49 | as intended an unknown operator raises ValueError("Invalid operator"); as written TypeError escapes the `except KeyError` instead |
| FilterBase.FromFilter | src/core/filters/base.py:23-29 | the SQL filter keeps the field, the operator and the value |
| LegacyFilters.GetFilters | src/core/filters.py:41-53 | the intended older loop yields the filters of the non-None fields, or the first error: a malformed key, an unknown operator or a value that is not a string |
| LegacyFilters.FiltersOfAsWritten | src/core/filters.py:41-57 | as written the older engine never builds a filter either; it is FilterBase's engine as written over entries whose given-ness is ignored |
| LegacyFilters.TypeErrorWitness | src/core/filters.py:55-57 | one name filter: the intended older engine builds it, the written one raises TypeError |
| LegacyFilters.FiltersOfAsWrittenRaises | src/core/filters.py:41-57 | as written the older engine succeeds exactly when every field is None, agreeing then with its intended version; with well-formed keys it otherwise raises TypeError |
| LegacyFilters.NonStringRefused | src/core/filters.py:8-51 | the older intended `Filter` declares `value: str`, so it refuses a boolean, integer or id value that the newer engine accepts; as written both engines raise the lookup's TypeError before any Filter is validated |
| LegacyFilters.Apply | src/core/filters.py:13-14 | a filter on a key the item lacks raises KeyError |
| LegacyFilters.UnsetIsIgnored | src/core/filters.py:43 | whether a field was explicitly set makes no difference to the older engine |
| LegacyFilters.UnknownOperatorIsKeyError | src/core/filters.py:44-48 | as intended an unknown operator escapes as KeyError in the older engine and as ValueError in the newer one; as written both raise TypeError |
| LegacyFilters.EnginesAgree | src/core/filters.py:41-53 | when every field is set, every key is well formed and every value is a string or None, the two intended engines give the same filters and the two written engines the same result |
| GroupFilters.KeySplits | src/core/filters/group.py:9-24 | each declared key splits into its field and eq |
| GroupFilters.GroupFilterSetFilters | src/core/filters/group.py:9-11 | a group filter set filters only on name equality and on privacy-flag equality, each only when given; as written, giving either raises TypeError |
| GroupFilters.MemberFilterSetFilters | src/core/filters/group.py:14-18 | a member filter set filters on equality of group_id, user_id, is_admin and is_owner, each only when given; as written, giving any of them raises TypeError |
| GroupFilters.RequestFilterSetFilters | src/core/filters/group.py:21-24 | a request filter set filters on equality of group_id, user_id and status, each only when given; as written, giving any of them raises TypeError |
| GroupFilters.DefaultInputsFilterNothing | src/core/filters/group.py:27-29 | input filters left at their defaults select everything, as intended and as written |
| GroupFilters.MemberScopeIsKept | src/core/services/group.py:432-436 | the member listing always filters on the requested group first, and the caller's filters reach only is_admin and is_owner; as written that group scope is always dumped, so the filter set raises TypeError |
| Tables.Values | tests/fakes/repositories/group.py:27 | `values()` lists one value per key, in key order |
| Tables.Set | tests/fakes/repositories/group.py:48 | assigning keeps a present key in place and appends a new one |
| Tables.Del | tests/fakes/repositories/group.py:65 | `del` removes that key and keeps the order of the rest |
| Tables.Empty | tests/fakes/database.py:8-12 | a new table is empty |
| Tables.DropWhereRows | tests/fakes/repositories/group.py:193-196 | the sweep removes exactly the rows it selects and leaves every other row as it was |
| Tables.Filtered | tests/fakes/repositories/group.py:38-42 | a comprehension keeps no more than its input; every element it keeps is in the input and passes, and every passing element of the input is kept |
| Tables.FilteredMembers | tests/fakes/repositories/group.py:38-42 | the comprehension keeps exactly the elements that pass |
| Tables.First | tests/fakes/repositories/group.py:203-207 | the loop returns a matching element of the list, or none when nothing matches |
| Tables.FirstIsHeadOfFiltered | tests/fakes/repositories/group.py:203-207 | the loop finds something exactly when the comprehension would, and finds its first element |
| Tables.FirstIndex | tests/fakes/repositories/group.py:203-207 | the element found sits at an index before which nothing matches |
| Tables.SetNewAppends | tests/fakes/repositories/group.py:48 | a new key's value comes after all the others |
| Tables.SetPresentInPlace | tests/fakes/repositories/group.py:62 | overwriting a present key keeps every value in its place |
| Tables.ValuesAreRows | tests/fakes/repositories/group.py:27 | the listed values are exactly the stored rows |
| FakeRepositories.PersistedAll | tests/fakes/repositories/group.py:50-54 | the batch insert always leaves a well-formed table |
| FakeRepositories.PersistThenGet | tests/fakes/repositories/group.py:45-48 | persist appends a fresh id, which `get` then finds; a present id raises AlreadyExists and changes nothing |
| FakeRepositories.UpdateThenGet | tests/fakes/repositories/group.py:56-62 | update overwrites the record in place, whatever fields_to_update says |
| FakeRepositories.DeleteThenGet | tests/fakes/repositories/group.py:64-65 | delete removes exactly that id; an absent id raises KeyError |
| FakeRepositories.PersistedAllPrefix | tests/fakes/repositories/group.py:50-54 | persist_many appends the records in order up to the first duplicate id, and those records stay when it raises |
| FakeRepositories.PersistManyNotAtomic | tests/fakes/repositories/group.py:50-54 | the first record of a batch stays stored even though the batch raises |
| FakeRepositories.ManyOfNoFilterSet | tests/fakes/repositories/group.py:26-35 | with no filter set, or one with no fields, get_many returns all records in insertion order |
| FakeRepositories.ManyOfAsWrittenRaises | tests/fakes/repositories/group.py:26-35 | get_many as written (`ManyOfAsWritten`) lists every record when nothing is dumped, as intended, and otherwise raises the exception of get_filters |
| FakeRepositories.MatchingFiltered | tests/fakes/repositories/group.py:31-33 | when no filter raises, get_many keeps, in order, exactly the records that pass every filter |
| FakeRepositories.MatchingRaises | tests/fakes/repositories/group.py:31-33 | otherwise it raises what the filters raise on the earliest record where one raises |
| FakeRepositories.MemberOfFirst | tests/fakes/repositories/group.py:198-207 | the membership earliest in insertion order, or DoesNotExist exactly when there is none |
| FakeRepositories.PendingOfFirst | tests/fakes/repositories/group.py:125-138 | the pending request earliest in insertion order, or DoesNotExist exactly when there is none |
| FakeRepositories.GroupsOfSpec | tests/fakes/repositories/group.py:37-43 | the group of each of the user's memberships, in order; a dangling membership raises KeyError |
| FakeRepositories.Sweep | tests/fakes/repositories/group.py:120-123 | the loop visits the keys in insertion order and leaves the table `DropWhere` defines, still valid and keyed by id |
| FakeRepositories.DeleteByGroupIdRows | tests/fakes/repositories/group.py:120-123 | delete_by_group_id removes exactly the group's rows from both tables |
| FakeRepositories.FakeDatabase.constructor | tests/fakes/database.py:8-12 | the three group tables start empty |
| FakeRepositories.FakeGroupRepository.constructor | tests/fakes/repositories/group.py:17-18 | the repository works on the given database |
| FakeRepositories.FakeGroupRepository.Get | tests/fakes/repositories/group.py:20-24 | the stored group, or DoesNotExist |
| FakeRepositories.FakeGroupRepository.GetMany | tests/fakes/repositories/group.py:26-35 | the groups that pass the filter set's filters, in insertion order |
| FakeRepositories.FakeGroupRepository.GetManyForUser | tests/fakes/repositories/group.py:37-43 | the groups of the user's memberships, in membership order |
| FakeRepositories.FakeGroupRepository.Persist | tests/fakes/repositories/group.py:45-48 | inserts a new group or raises AlreadyExists, changing only the group table |
| FakeRepositories.FakeGroupRepository.PersistMany | tests/fakes/repositories/group.py:50-54 | the loop inserts the groups one at a time, stopping at the first duplicate |
| FakeRepositories.FakeGroupRepository.Update | tests/fakes/repositories/group.py:56-62 | overwrites the group by id |
| FakeRepositories.FakeGroupRepository.Delete | tests/fakes/repositories/group.py:64-65 | removes the group by id, or raises KeyError |
| FakeRepositories.FakeGroupRequestRepository.constructor | tests/fakes/repositories/group.py:73-74 | the repository works on the given database |
| FakeRepositories.FakeGroupRequestRepository.Get | tests/fakes/repositories/group.py:76-80 | the stored request, or DoesNotExist |
| FakeRepositories.FakeGroupRequestRepository.GetMany | tests/fakes/repositories/group.py:82-96 | the requests that pass the filters, in insertion order |
| FakeRepositories.FakeGroupRequestRepository.Persist | tests/fakes/repositories/group.py:98-101 | inserts a new request or raises AlreadyExists |
| FakeRepositories.FakeGroupRequestRepository.PersistMany | tests/fakes/repositories/group.py:103-107 | inserts the requests one at a time, stopping at the first duplicate |
| FakeRepositories.FakeGroupRequestRepository.Update | tests/fakes/repositories/group.py:109-115 | overwrites the request by id |
| FakeRepositories.FakeGroupRequestRepository.Delete | tests/fakes/repositories/group.py:117-118 | removes the request by id, or raises KeyError |
| FakeRepositories.FakeGroupRequestRepository.DeleteByGroupId | tests/fakes/repositories/group.py:120-123 | the sweep over a snapshot of the keys removes the group's requests |
| FakeRepositories.FakeGroupRequestRepository.GetPendingRequestByUserAndGroupId | tests/fakes/repositories/group.py:125-138 | the loop returns the first pending request of the user for the group |
| FakeRepositories.FakeGroupMemberRepository.constructor | tests/fakes/repositories/group.py:146-147 | the repository works on the given database |
| FakeRepositories.FakeGroupMemberRepository.Get | tests/fakes/repositories/group.py:149-153 | the stored member, or DoesNotExist |
| FakeRepositories.FakeGroupMemberRepository.GetMany | tests/fakes/repositories/group.py:155-169 | the members that pass the filters, in insertion order |
| FakeRepositories.FakeGroupMemberRepository.Persist | tests/fakes/repositories/group.py:171-174 | inserts a new member or raises AlreadyExists |
| FakeRepositories.FakeGroupMemberRepository.PersistMany | tests/fakes/repositories/group.py:176-180 | inserts the members one at a time, stopping at the first duplicate |
| FakeRepositories.FakeGroupMemberRepository.Update | tests/fakes/repositories/group.py:182-188 | overwrites the member by id |
| FakeRepositories.FakeGroupMemberRepository.Delete | tests/fakes/repositories/group.py:190-191 | removes the member by id, or raises KeyError |
| FakeRepositories.FakeGroupMemberRepository.DeleteByGroupId | tests/fakes/repositories/group.py:193-196 | the sweep removes the group's memberships |
| FakeRepositories.FakeGroupMemberRepository.GetByUserAndGroupId | tests/fakes/repositories/group.py:198-207 | the loop returns the first membership of the user in the group |
| LegacyFakeRepositories.FakeGroupRepository.constructor | src/tests/fakes/repositories/group.py:15-16 | a repository starts with its own empty dict |
| LegacyFakeRepositories.FakeGroupRepository.Get | src/tests/fakes/repositories/group.py:18-22 | the stored group, or DoesNotExist |
| LegacyFakeRepositories.FakeGroupRepository.GetMany | src/tests/fakes/repositories/group.py:24-33 | the groups that pass the filters, in insertion order |
| LegacyFakeRepositories.FakeGroupRepository.Persist | src/tests/fakes/repositories/group.py:35-38 | inserts a new group or raises AlreadyExists |
| LegacyFakeRepositories.FakeGroupRepository.PersistMany | src/tests/fakes/repositories/group.py:40-44 | inserts one at a time, stopping at the first duplicate |
| LegacyFakeRepositories.FakeGroupRepository.Update | src/tests/fakes/repositories/group.py:46-52 | overwrites the group by id |
| LegacyFakeRepositories.FakeGroupRepository.Delete | src/tests/fakes/repositories/group.py:54-55 | removes the group by id, or raises KeyError |
| LegacyFakeRepositories.FakeGroupRequestRepository.constructor | src/tests/fakes/repositories/group.py:63-64 | a repository starts with its own empty dict |
| LegacyFakeRepositories.FakeGroupRequestRepository.Get | src/tests/fakes/repositories/group.py:66-70 | the stored request, or DoesNotExist |
| LegacyFakeRepositories.FakeGroupRequestRepository.GetMany | src/tests/fakes/repositories/group.py:72-86 | the requests that pass the filters, in insertion order |
| LegacyFakeRepositories.FakeGroupRequestRepository.Persist | src/tests/fakes/repositories/group.py:88-91 | inserts a new request or raises AlreadyExists |
| LegacyFakeRepositories.FakeGroupRequestRepository.PersistMany | src/tests/fakes/repositories/group.py:93-97 | inserts one at a time, stopping at the first duplicate |
| LegacyFakeRepositories.FakeGroupRequestRepository.Update | src/tests/fakes/repositories/group.py:99-105 | overwrites the request by id |
| LegacyFakeRepositories.FakeGroupRequestRepository.Delete | src/tests/fakes/repositories/group.py:107-108 | removes the request by id, or raises KeyError |
| LegacyFakeRepositories.FakeGroupRequestRepository.GetPendingRequestByUserAndGroupId | src/tests/fakes/repositories/group.py:110-124 | the first pending request of the user for the group |
| LegacyFakeRepositories.FakeGroupMemberRepository.constructor | src/tests/fakes/repositories/group.py:131-132 | a repository starts with its own empty dict |
| LegacyFakeRepositories.FakeGroupMemberRepository.Get | src/tests/fakes/repositories/group.py:134-138 | the stored member, or DoesNotExist |
| LegacyFakeRepositories.FakeGroupMemberRepository.GetMany | src/tests/fakes/repositories/group.py:140-154 | the members that pass the filters, in insertion order |
| LegacyFakeRepositories.FakeGroupMemberRepository.Persist | src/tests/fakes/repositories/group.py:156-159 | inserts a new member or raises AlreadyExists |
| LegacyFakeRepositories.FakeGroupMemberRepository.PersistMany | src/tests/fakes/repositories/group.py:161-165 | inserts one at a time, stopping at the first duplicate |
| LegacyFakeRepositories.FakeGroupMemberRepository.Update | src/tests/fakes/repositories/group.py:167-173 | overwrites the member by id |
| LegacyFakeRepositories.FakeGroupMemberRepository.Delete | src/tests/fakes/repositories/group.py:175-176 | removes the member by id, or raises KeyError |
| LegacyFakeRepositories.FakeGroupMemberRepository.GetByUserAndGroupId | src/tests/fakes/repositories/group.py:178-188 | the first membership of the user in the group |
| GroupRules.Dump | src/core/services/group.py:83 | the fields the caller gave, in declaration order; `GroupProperties.DumpApplies` states what the loop makes of them |
| GroupRules.DumpAsWritten | src/core/services/group.py:82-85 | the dump always starts with owner_id, null or not; the items after it are only the given fields, which the setattr loop never reaches because owner_id raises first |
| GroupRules.SetAttr | src/core/services/group.py:84 | setattr raises exactly on owner_id, which a Group does not have, and otherwise keeps the group's id |
| GroupRules.SetAttrs | src/core/services/group.py:83-85 | the loop raises exactly when some item is owner_id, and otherwise keeps the group's id |
| GroupRules.Patched | src/core/services/group.py:82-85 | the reference for the loop, every given field replaced; `GroupProperties.DumpApplies` ties the two |
| GroupRules.CreateGroup | src/core/services/group.py:51-62 | leaves the database well formed and never touches the requests |
| GroupRules.UpdateGroup | src/core/services/group.py:64-87 | the intended update_group writes only the groups, and nothing when it raises |
| GroupRules.UpdateGroupAsWritten | src/core/services/group.py:64-87 | update_group as written never touches members or requests |
| GroupRules.DeleteGroup | src/core/services/group.py:89-105 | the cascade leaves the database well formed |
| GroupRules.GetGroup | src/core/services/group.py:107-108 | writes nothing |
| GroupRules.GetGroups | src/core/services/group.py:110-118 | writes nothing |
| GroupRules.GetGroupsAsWritten | src/core/services/group.py:110-118 | get_groups as written writes nothing either |
| GroupRules.GetGroupsForUser | src/core/services/group.py:120-126 | writes nothing |
| GroupRules.CreateGroupRequestAsWritten | src/core/services/group.py:128-160 | create_group_request as written writes nothing |
| GroupRules.CreateGroupRequest | src/core/services/group.py:128-160 | writes only the requests, nothing when it raises, and leaves the database well formed |
| GroupRules.CreateGroupMember | src/core/services/group.py:277-294 | writes only the members, nothing when it raises, and leaves the database well formed |
| GroupRules.UpdateGroupRequestAsWritten | src/core/services/group.py:162-196 | update_group_request as written never touches groups or members |
| GroupRules.UpdateGroupRequest | src/core/services/group.py:162-196 | never touches the groups and leaves the database well formed |
| GroupRules.DeleteGroupRequest | src/core/services/group.py:198-215 | writes only the requests |
| GroupRules.GetGroupRequest | src/core/services/group.py:217-239 | writes nothing |
| GroupRules.GetGroupRequestsForGroup | src/core/services/group.py:241-263 | writes nothing |
| GroupRules.GetGroupRequestsForUser | src/core/services/group.py:265-275 | writes nothing |
| GroupRules.GetGroupRequestsForGroupAsWritten | src/core/services/group.py:241-263 | as written, writes nothing |
| GroupRules.GetGroupRequestsForUserAsWritten | src/core/services/group.py:265-275 | as written, writes nothing |
| GroupRules.UpdateGroupMember | src/core/services/group.py:296-322 | writes only the members, and nothing when it raises |
| GroupRules.ChangeGroupOwner | src/core/services/group.py:324-352 | writes only the members, and nothing when it raises |
| GroupRules.DeleteGroupMember | src/core/services/group.py:354-383 | writes only the members |
| GroupRules.LeaveGroup | src/core/services/group.py:385-398 | writes only the members |
| GroupRules.GetGroupMember | src/core/services/group.py:400-421 | writes nothing |
| GroupRules.GetGroupMembers | src/core/services/group.py:423-449 | writes nothing |
| GroupRules.GetGroupMembersAsWritten | src/core/services/group.py:423-449 | as written, writes nothing |
| GroupService.SetAttrsLoop | src/core/services/group.py:82-85 | the loop computes what `GroupRules.SetAttrs` states and, when it goes through, collects every key in order |
| GroupService.GroupService.constructor | src/core/services/group.py:41-49 | the three repositories share one database |
| GroupService.GroupService.CreateGroup | src/core/services/group.py:51-62 | persists the group and then its owner membership, as `GroupRules.CreateGroup` states |
| GroupService.GroupService.UpdateGroup | src/core/services/group.py:64-87 | the setattr loop over the given fields, and the write, do what the intended `GroupRules.UpdateGroup` states |
| GroupService.GroupService.DeleteGroup | src/core/services/group.py:89-105 | the checks and the cascade of `GroupRules.DeleteGroup` |
| GroupService.GroupService.GetGroup | src/core/services/group.py:107-108 | the stored group, or DoesNotExist |
| GroupService.GroupService.GetGroups | src/core/services/group.py:110-118 | the listing of `GroupRules.GetGroups` |
| GroupService.GroupService.GetGroupsForUser | src/core/services/group.py:120-126 | the groups of the user's memberships |
| GroupService.GroupService.CreateGroupRequest | src/core/services/group.py:128-160 | the corrected create_group_request of `GroupRules.CreateGroupRequest` |
| GroupService.GroupService.UpdateGroupRequest | src/core/services/group.py:162-196 | the checks, the status write and the member creation of the intended `GroupRules.UpdateGroupRequest` |
| GroupService.GroupService.DeleteGroupRequest | src/core/services/group.py:198-215 | the checks and the delete of `GroupRules.DeleteGroupRequest` |
| GroupService.GroupService.GetGroupRequest | src/core/services/group.py:217-239 | the access rule of `GroupRules.GetGroupRequest` |
| GroupService.GroupService.GetGroupRequestsForGroup | src/core/services/group.py:241-263 | the scoped listing of `GroupRules.GetGroupRequestsForGroup` |
| GroupService.GroupService.GetGroupRequestsForUser | src/core/services/group.py:265-275 | the user's pending requests |
| GroupService.GroupService.CreateGroupMember | src/core/services/group.py:277-294 | the checks and the insert of `GroupRules.CreateGroupMember` |
| GroupService.GroupService.UpdateGroupMember | src/core/services/group.py:296-322 | the checks and the admin-flag write of `GroupRules.UpdateGroupMember` |
| GroupService.GroupService.ChangeGroupOwner | src/core/services/group.py:324-352 | the checks and the two writes of `GroupRules.ChangeGroupOwner` |
| GroupService.GroupService.DeleteGroupMember | src/core/services/group.py:354-383 | the checks and the delete of `GroupRules.DeleteGroupMember` |
| GroupService.GroupService.LeaveGroup | src/core/services/group.py:385-398 | the owner check and the delete of `GroupRules.LeaveGroup` |
| GroupService.GroupService.GetGroupMember | src/core/services/group.py:400-421 | the access rule of `GroupRules.GetGroupMember` |
| GroupService.GroupService.GetGroupMembers | src/core/services/group.py:423-449 | the scoped listing of `GroupRules.GetGroupMembers` |
| GroupProperties.Membership | src/core/services/group.py:72-77 | the membership lookup succeeds exactly when a membership row ties the user to the group, and otherwise raises DoesNotExist |
| GroupProperties.PendingRequest | src/core/services/group.py:134-143 | the pending lookup succeeds exactly when a pending request of the user for the group is stored |
| GroupProperties.MemberOfAfterPersist | tests/fakes/repositories/group.py:171-174 | persisting a new member leaves every lookup that already succeeded as it was |
| GroupProperties.DumpApplies | src/core/services/group.py:82-85 | the setattr loop over the intended dump replaces exactly the fields given; a given owner_id raises before anything is set |
| GroupProperties.UpdateGroupOutcome | src/core/services/group.py:64-87 | DoesNotExist, then NotAGroupMember, then NotAGroupOwner (an admin included); success stores the patched group in its place |
| GroupProperties.UpdateGroupSucceeds | src/core/services/group.py:64-87 | the intended update_group goes through exactly when the group exists, the caller owns it and no owner_id is given |
| GroupProperties.UpdateGroupIdempotent | src/core/services/group.py:64-87 | applying the same update twice gives the same database as applying it once |
| GroupProperties.UpdateGroupAsWrittenNeverWrites | src/core/services/group.py:64-87 | as written update_group never writes: it refuses where the intended one refuses, and raises NoSuchField wherever the caller owns the group |
| GroupProperties.OwnerIdWitness | src/core/services/group.py:82-85 | the owner renaming their group with all four fields given, owner_id null: the body passes validation as written, the intended update succeeds, the written one raises and writes nothing |
| GroupProperties.CreateGroupMakesOwner | src/core/services/group.py:51-62 | with fresh ids the group gets exactly one member, its creator, as owner and not admin |
| GroupProperties.CreateGroupPartial | src/core/services/group.py:59-60 | a taken group id writes nothing; a taken member id leaves the group stored with no owner |
| GroupProperties.DeleteGroupOutcome | src/core/services/group.py:89-105 | the same order of errors as update_group; success removes the group and all of its members and requests, and nothing else |
| GroupProperties.CreateGroupRequestOutcome | src/core/services/group.py:128-160 | AlreadyRequestedToJoinGroup before AlreadyAGroupMember; success adds exactly one new PENDING request; at most one pending request per user and group |
| GroupProperties.CreateGroupRequestOnce | src/core/services/group.py:134-143 | asking again after a request was made fails and writes nothing |
| GroupProperties.CreateGroupRequestAsWrittenRaises | src/core/services/group.py:154-158 | as written it never stores a request, and raises TypeError wherever the intended operation succeeds |
| GroupProperties.DuplicateKeywordWitness | src/core/services/group.py:154-158 | on an empty database the intended operation succeeds and the written one raises |
| GroupProperties.CreateGroupMemberOutcome | src/core/services/group.py:277-294 | needs the group to exist and the user not yet to be a member; stores one new member, never an owner, and keeps memberships unique |
| GroupProperties.UpdateGroupRequestErrors | src/core/services/group.py:169-184 | unknown id, another group's request, no membership, a plain member, a non-pending request, in that order; none of them writes |
| GroupProperties.DeclineRequest | src/core/services/group.py:186-190 | declining records the status and adds no member |
| GroupProperties.AcceptRequest | src/core/services/group.py:186-196 | any other status, PENDING included, is recorded and makes a new author, not yet in the group, a plain member |
| GroupProperties.AcceptRequestRefused | src/core/services/group.py:186-196 | with any other status the new status is stored first; if create_group_member then refuses (no such group, an author already in the group, a taken membership id) that write stays and its error is raised |
| GroupProperties.RequestDecidedOnce | src/core/services/group.py:183-184 | after a decision the request cannot be decided again |
| GroupProperties.UpdateGroupRequestAsWrittenAddsNoMember | src/core/services/group.py:186-196 | as written update_group_request never adds a member: it agrees with the intended one on every refusal and on DECLINED, and otherwise stores the status and raises ValidationError |
| GroupProperties.MissingIsAdminWitness | src/core/services/group.py:192-196 | accepting a pending request: the intended operation adds the author, the written one raises and adds no one |
| GroupProperties.DeleteGroupRequestOutcome | src/core/services/group.py:198-215 | only the author withdraws a pending request; another group's and another author's requests raise the same DoesNotExist |
| GroupProperties.GetGroupRequestAccess | src/core/services/group.py:217-239 | owners and admins see the group's requests; a non-member sees only their own; a plain member is refused |
| GroupProperties.EqFilterPasses | src/core/filters/base.py:14-15 | one equality filter passes exactly when its field is not constrained or is equal |
| GroupProperties.GroupListing | src/core/filters/group.py:9-11 | a group listing is the groups the filter set's reference predicate accepts, in insertion order |
| GroupProperties.MemberListing | src/core/filters/group.py:14-18 | a member listing is the members the reference predicate accepts, in order |
| GroupProperties.RequestListing | src/core/filters/group.py:21-24 | a request listing is the requests the reference predicate accepts, in order |
| GroupProperties.GetGroupsListing | src/core/services/group.py:110-118 | the groups the filters select, in insertion order; with no filters, all of them |
| GroupProperties.RequestsForGroupVisibility | src/core/services/group.py:241-263 | owners and admins see all pending requests of the group; a non-member sees only their own; a plain member is refused |
| GroupProperties.RequestsForUserListing | src/core/services/group.py:265-275 | the user's pending requests for every group, in insertion order |
| GroupProperties.GetGroupsAsWrittenOutcome | src/core/services/group.py:110-118 | as written, get_groups lists every group when neither filter is given, as intended, and raises TypeError when either is |
| GroupProperties.RequestsForGroupAsWrittenRaises | src/core/services/group.py:241-263 | as written, a plain member is refused as intended, and every caller past that check gets TypeError |
| GroupProperties.RequestsForUserAsWrittenRaises | src/core/services/group.py:265-275 | as written, get_group_requests_for_user always raises TypeError |
| GroupProperties.ListingTypeErrorWitness | src/core/services/group.py:265-275 | a user with one pending request: the intended listing returns it, the written one raises TypeError |
| GroupProperties.GetGroupMembersListing | src/core/services/group.py:423-449 | a private group is listed to its members only; the listing holds only that group's members that the filters select |
| GroupProperties.GetGroupMembersAsWrittenRaises | src/core/services/group.py:423-449 | as written, the lookup and the privacy check raise as intended, and every caller past them gets TypeError |
| GroupProperties.GetGroupMemberAccess | src/core/services/group.py:400-421 | a private group's members are shown to members only; only a membership of the requested group is returned |
| GroupProperties.UpdateGroupMemberOutcome | src/core/services/group.py:296-322 | owner only; the target gets the requested admin flag; nothing is written when it already has it |
| GroupProperties.ChangeGroupOwnerOutcome | src/core/services/group.py:324-352 | the target is looked up before the ownership check; the caller loses ownership, the target gains it, no other row changes |
| GroupProperties.OwnershipMoves | src/core/services/group.py:348-352 | a sole owner hands ownership to a target in the group; a target in another group leaves the group with no owner |
| GroupProperties.DeleteGroupMemberOutcome | src/core/services/group.py:354-383 | owners and admins remove members, only the owner removes an admin, no one removes an owner; the set of owners is unchanged |
| GroupProperties.LeaveGroupOutcome | src/core/services/group.py:385-398 | a member who is not the owner leaves; the owner cannot; a non-member gets DoesNotExist |

## Left out

- I/O and concurrency: the services are `async`, and the database, the web routes, SQLAlchemy, Celery and the e-mail sender are replaced by the in-memory repositories or left out. `SQLAlchemyFilter.__call__` (a SQL expression) is left out as well, and only the copy made by `from_filter` is modelled.
- UserService (`src/core/services/user.py`), authentication, JWT and bcrypt are not part of this model. The password hash is an opaque string given by the caller.
- Generated values come in as parameters: ids from `uuid4`, token strings from `uuid4().hex`, and the current time and date from `datetime.now`. Moments are whole seconds, and dates are triples that are assumed to be real calendar dates, because date parsing is left out.
- `created_at` and `updated_at` of the base model (`src/core/models/base.py`) are not part of this model.
- Filter values are booleans, integers, strings and ids. Floats are not modelled. The older engine's `Filter` declares `value: str` and refuses every other value; pydantic's validation of `field`, which the split always makes a string, is not modelled.
- UserSchemas.ValidateCreateUser: e-mail format validation (pydantic's `validate_email`) is a boolean parameter and is not modelled.
- An update schema field given explicitly as null for `name`, `is_private` or `is_admin` is not modelled. Only "not given" or a value is. `owner_id` is either not given or a value in the intended dump. In the dump as written it is always present, possibly null.
- GroupSchemas.ValidateUpdateGroup: follows the service tests' reading, in which a field left out is not given. As written, pydantic v2 refuses a body that leaves out any field with a ValidationError ("Field required"), which the route turns into a 422; `GroupSchemas.ValidateUpdateGroupAsWritten` models that (see Findings).
- The snapshot mixes pydantic versions: src/constants.py:1 imports `BaseSettings` from pydantic, which only pydantic v1 provides. The model takes v2 throughout, because the services and schemas use `model_dump` and `field_validator`, which only v2 provides. The constants are taken as the values declared there.
- GroupService.GroupService.UpdateGroup: proved against the intended update_group, whose dump holds only the given fields. As written, update_group never writes (see Findings).
- GroupProperties.DumpApplies: states the intended dump. The dump as written always holds owner_id, and `GroupRules.DumpAsWritten` models it.
- GroupProperties.UpdateGroupOutcome: states the intended update_group. The written one is `GroupRules.UpdateGroupAsWritten`.
- GroupProperties.UpdateGroupIdempotent: holds of the intended update_group. The written one never writes, so it is idempotent trivially.
- GroupService.GroupService.UpdateGroupRequest: proved against the intended update_group_request, which creates a member who is not an admin. As written, it raises ValidationError after the status write (see Findings).
- GroupProperties.AcceptRequest: states the intended update_group_request, for an author not yet in the group. The written one is `GroupRules.UpdateGroupRequestAsWritten`. `GroupProperties.AcceptRequestRefused` states the other cases.
- `GroupRepository.update` receives `fields_to_update` and ignores it, as the fakes do. `GroupService.SetAttrsLoop` states which names the loop collects.
- The filter engines and everything built on them are proved against the intended operator mapping. As written, `_get_operator` raises TypeError in both engines (see Findings). The as-written engines are `FilterBase.FiltersOfAsWritten`, `LegacyFilters.FiltersOfAsWritten` and `FakeRepositories.ManyOfAsWritten`. Each line below names members that state only the intended behaviour, or state both.
- FilterBase.GetOperator: models the intended lookup. The lookup as written is `FilterBase.GetOperatorAsWritten`.
- FilterBase.GetFilters: the loop is proved against the intended `FiltersOf`. As written it computes `FiltersOfAsWritten`.
- LegacyFilters.GetFilters: the loop is proved against the intended `FiltersOf`. As written it computes `LegacyFilters.FiltersOfAsWritten`.
- FilterBase.OperatorNames: states the intended engine and the as-written TypeError too.
- FilterBase.FiltersOfWellFormed: states the intended engine and the as-written TypeError too.
- FilterBase.BadOperator: states the intended engine and the as-written TypeError too.
- LegacyFilters.NonStringRefused: states the intended engine and the as-written TypeError too.
- LegacyFilters.UnknownOperatorIsKeyError: states the intended engine and the as-written TypeError too.
- LegacyFilters.EnginesAgree: states that the intended engines agree, and that the two engines as written agree too.
- GroupFilters.GroupFilterSetFilters: states the intended filters and the as-written TypeError too.
- GroupFilters.MemberFilterSetFilters: states the intended filters and the as-written TypeError too.
- GroupFilters.RequestFilterSetFilters: states the intended filters and the as-written TypeError too.
- GroupFilters.MemberScopeIsKept: states the intended filters and the as-written TypeError too.
- FakeRepositories.FakeGroupRepository.GetMany: proved against the intended `ManyOf`. As written it raises TypeError for any dumped field, as `FakeRepositories.ManyOfAsWrittenRaises` states.
- FakeRepositories.FakeGroupRequestRepository.GetMany: proved against the intended `ManyOf`. As written it raises TypeError for any dumped field, as `FakeRepositories.ManyOfAsWrittenRaises` states.
- FakeRepositories.FakeGroupMemberRepository.GetMany: proved against the intended `ManyOf`. As written it raises TypeError for any dumped field, as `FakeRepositories.ManyOfAsWrittenRaises` states.
- LegacyFakeRepositories.FakeGroupRepository.GetMany: proved against the intended `ManyOf`. As written it raises TypeError for any dumped field, because these repositories also use the engine of src/core/filters/base.py.
- LegacyFakeRepositories.FakeGroupRequestRepository.GetMany: proved against the intended `ManyOf`. As written it raises TypeError for any dumped field, because these repositories also use the engine of src/core/filters/base.py.
- LegacyFakeRepositories.FakeGroupMemberRepository.GetMany: proved against the intended `ManyOf`. As written it raises TypeError for any dumped field, because these repositories also use the engine of src/core/filters/base.py.
- GroupRules.GetGroups: models the intended listing. The listing as written is `GroupRules.GetGroupsAsWritten`.
- GroupRules.GetGroupRequestsForGroup: models the intended listing. The listing as written is `GroupRules.GetGroupRequestsForGroupAsWritten`.
- GroupRules.GetGroupRequestsForUser: models the intended listing. The listing as written is `GroupRules.GetGroupRequestsForUserAsWritten`.
- GroupRules.GetGroupMembers: models the intended listing. The listing as written is `GroupRules.GetGroupMembersAsWritten`.
- GroupService.GroupService.GetGroups: models the intended listing. The listing as written is `GroupRules.GetGroupsAsWritten`.
- GroupService.GroupService.GetGroupRequestsForGroup: models the intended listing. The listing as written is `GroupRules.GetGroupRequestsForGroupAsWritten`.
- GroupService.GroupService.GetGroupRequestsForUser: models the intended listing. The listing as written is `GroupRules.GetGroupRequestsForUserAsWritten`.
- GroupService.GroupService.GetGroupMembers: models the intended listing. The listing as written is `GroupRules.GetGroupMembersAsWritten`.
- GroupProperties.GroupListing: states the intended filtered listing. As written, a filter set with any field given raises TypeError (GroupFilters.GroupFilterSetFilters).
- GroupProperties.MemberListing: states the intended filtered listing. As written, a filter set with any field given raises TypeError (GroupFilters.MemberFilterSetFilters).
- GroupProperties.RequestListing: states the intended filtered listing. As written, a filter set with any field given raises TypeError (GroupFilters.RequestFilterSetFilters).
- GroupProperties.GetGroupsListing: states the intended listing. The as-written counterpart is `GroupProperties.GetGroupsAsWrittenOutcome`.
- GroupProperties.RequestsForGroupVisibility: states the intended listing. The as-written counterpart is `GroupProperties.RequestsForGroupAsWrittenRaises`.
- GroupProperties.RequestsForUserListing: states the intended listing. The as-written counterpart is `GroupProperties.RequestsForUserAsWrittenRaises`.
- GroupProperties.GetGroupMembersListing: states the intended listing. The as-written counterpart is `GroupProperties.GetGroupMembersAsWrittenRaises`.
- GroupService.GroupService.CreateGroupRequest: proved against the intended create_group_request. As written, it raises TypeError (see Findings).
- GroupService.GroupService.constructor: it requires the three repositories to share one `FakeDatabase`, as the test fixtures build them. Repositories over separate databases are not modelled.
- The `User` record of `FakeDatabase.users` and the user repositories are not part of this model.

Where the source and its neighbours disagree, the model follows the code:

- `src/core/exceptions.py` defines neither the group exceptions the service imports nor `ExpiredTokenError`, which `src/core/models/user.py` imports; it defines `TokenExpiredError` instead. The model gives each of these its own error value.
- `create_group_request` never looks up the group, and `leave_group` does not either. `update_group_member`, `change_group_owner` and `delete_group_member` never check that the target membership belongs to the group in the path. The lemmas state all of these as the code behaves.
- A record fetched from a fake repository is the stored object itself. The service changes it and then writes it back, and nothing can raise in between. The model therefore copies, changes and writes back, and it does not capture aliasing.

## Findings

| source | as written | input that shows it | evidently intended | confidence | as-written member | corrected member |
|---|---|---|---|---|---|---|
| src/core/services/group.py:154-158 | `GroupRequest(user_id=..., group_id=..., **schema.model_dump())`, where the dump also holds user_id and group_id, raises TypeError (keyword given twice) every time the checks pass | an empty database, user 1, group 2: the call raises instead of storing a request | store a PENDING request with the schema's message | not executed | GroupRules.CreateGroupRequestAsWritten, GroupProperties.CreateGroupRequestAsWrittenRaises, GroupProperties.DuplicateKeywordWitness | GroupRules.CreateGroupRequest, GroupProperties.CreateGroupRequestOutcome |
| src/core/services/group.py:82-85 | every field of `UpdateGroupSchema` is declared without a default, so `schema.model_dump()` (not the `dict` override of src/core/schemas/base.py) always holds owner_id first, and `setattr(group, "owner_id", ...)` raises because a Group has no such field; the write is never reached | the owner of a group renaming it, with a body that gives all four fields and owner_id null (the witness's None), so that it passes validation | replace the fields the caller gave, as the service tests expect | not executed | GroupRules.UpdateGroupAsWritten, GroupProperties.UpdateGroupAsWrittenNeverWrites, GroupProperties.OwnerIdWitness | GroupRules.UpdateGroup, GroupProperties.UpdateGroupOutcome |
| src/core/schemas/group.py:21-26 | none of `UpdateGroupSchema`'s fields has a default, so under pydantic v2 each is required and a body that leaves one out is refused with ValidationError, although `BaseUpdateSchema` dumps with `exclude_unset` and the service tests build the schema without owner_id | a body that gives only a name | a field left out is not given and is left unchanged | not executed | GroupSchemas.ValidateUpdateGroupAsWritten, GroupSchemas.OmittedFieldWitness | GroupSchemas.ValidateUpdateGroup, GroupSchemas.UpdateGroupAgreesWhenComplete |
| src/core/services/group.py:192-196 | `CreateGroupMemberSchema(user_id=..., group_id=...)` leaves out is_admin, which src/core/schemas/group.py:45 declares without a default, so pydantic raises ValidationError after the new status has been stored, and no member is created | a group owned by user 7 with a pending request of user 8, accepted by user 7 | make the author a member who is not an admin | not executed | GroupRules.UpdateGroupRequestAsWritten, GroupProperties.UpdateGroupRequestAsWrittenAddsNoMember, GroupProperties.MissingIsAdminWitness | GroupRules.UpdateGroupRequest, GroupProperties.AcceptRequest |
| src/core/filters/base.py:61-63 | `_operators_mapping` (lines 33-40) is an unannotated class attribute whose name starts with `_`, so pydantic v2 makes it a private attribute, and `cls._operators_mapping` is the ModelPrivateAttr wrapper; indexing it raises TypeError, which the `except KeyError` does not catch, so `get_filters` raises for every dumped field | user 8, with one pending request, lists their own requests: `user_id__eq` is dumped and the listing raises | look the operator up in the dict, as the filter tests expect | not executed | FilterBase.FiltersOfAsWritten, FilterBase.FiltersOfAsWrittenRaises, GroupRules.GetGroupRequestsForUserAsWritten, GroupProperties.RequestsForUserAsWrittenRaises, GroupProperties.ListingTypeErrorWitness | FilterBase.FiltersOfWellFormed, GroupRules.GetGroupRequestsForUser, GroupProperties.RequestsForUserListing |
| src/core/filters.py:55-57 | the older engine declares the same mapping (lines 32-39), so its `_get_operator` raises TypeError too, before `Filter` validates the value | a filter set whose only field `name__eq` holds "group": the intended engine builds one filter, the written one raises | look the operator up in the dict | not executed | LegacyFilters.FiltersOfAsWritten, LegacyFilters.FiltersOfAsWrittenRaises, LegacyFilters.TypeErrorWitness | LegacyFilters.GetFilters, LegacyFilters.EnginesAgree |
| src/core/schemas/user.py:49-54 | a password that fails its 8-character bound is missing from `info.data`, so `info.data["password"]` raises KeyError out of validation | password "pass", repeat_password "password" | a ValidationError that names password | not executed | UserSchemas.ValidateCreateUserAsWritten, UserSchemas.ShortPasswordWitness | UserSchemas.ValidateCreateUser, UserSchemas.CreateUserAsWrittenAgrees |
