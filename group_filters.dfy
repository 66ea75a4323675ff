/**
  The filter sets of src/core/filters/group.py.  A filter set's fields are
  all declared without a default, so constructing one gives every field
  explicitly; only the None ones drop out.  The input filters are what a
  caller may pass; each of their fields defaults to None.
*/
module GroupFilters {
  import opened Wrappers
  import opened FilterBase
  import opened GroupModels

  datatype GroupFilterSet = GroupFilterSet(nameEq: Option<string>, isPrivateEq: Option<bool>)

  datatype GroupMemberFilterSet = GroupMemberFilterSet(
    groupIdEq: Option<Uuid>, userIdEq: Option<Uuid>, isAdminEq: Option<bool>, isOwnerEq: Option<bool>)

  datatype GroupRequestFilterSet = GroupRequestFilterSet(
    groupIdEq: Option<Uuid>, userIdEq: Option<Uuid>, statusEq: Option<GroupRequestStatus>)

  datatype GroupInputFilters = GroupInputFilters(nameEq: Option<string> := None, isPrivateEq: Option<bool> := None)

  datatype GroupMemberInputFilters = GroupMemberInputFilters(isAdminEq: Option<bool> := None, isOwnerEq: Option<bool> := None)

  datatype GroupRequestInputFilters = GroupRequestInputFilters(statusEq: Option<GroupRequestStatus> := None)

  function StrValue(o: Option<string>): Value { if o.Some? then VStr(o.value) else VNone }
  function BoolValue(o: Option<bool>): Value { if o.Some? then VBool(o.value) else VNone }
  function UuidValue(o: Option<Uuid>): Value { if o.Some? then VUuid(o.value) else VNone }
  function StatusOptValue(o: Option<GroupRequestStatus>): Value
  {
    if o.Some? then VStr(StatusValue(o.value)) else VNone
  }

  /** The declared fields of each filter set, in declaration order, all explicitly given. */
  function GroupEntries(f: GroupFilterSet): seq<FieldEntry>
  {
    [EqEntry("name", StrValue(f.nameEq)), EqEntry("is_private", BoolValue(f.isPrivateEq))]
  }

  function MemberEntries(f: GroupMemberFilterSet): seq<FieldEntry>
  {
    [EqEntry("group_id", UuidValue(f.groupIdEq)), EqEntry("user_id", UuidValue(f.userIdEq)),
     EqEntry("is_admin", BoolValue(f.isAdminEq)), EqEntry("is_owner", BoolValue(f.isOwnerEq))]
  }

  function RequestEntries(f: GroupRequestFilterSet): seq<FieldEntry>
  {
    [EqEntry("group_id", UuidValue(f.groupIdEq)), EqEntry("user_id", UuidValue(f.userIdEq)),
     EqEntry("status", StatusOptValue(f.statusEq))]
  }

  /** One equality filter for a given field, none for an absent one. */
  function EqFilter(field: string, v: Value): seq<Filter>
  {
    if v == VNone then [] else [Filter(field, Eq, v)]
  }

  /** A declared name `field__op`. */
  function Key(field: string, op: string): string
  {
    field + "__" + op
  }

  /** Every key the group filter sets declare splits into its field and `eq`. */
  lemma KeySplits(field: string)
    requires field in {"name", "is_private", "group_id", "user_id", "is_admin", "is_owner", "status"}
    ensures SplitDunder(Key(field, "eq")) == [field, "eq"]
  {
    SplitKey(field, "eq");
  }

  /** One declared equality field in front of the rest of a filter set. */
  lemma {:induction false} FiltersOfEqEntry(field: string, v: Value, rest: seq<FieldEntry>)
    requires SplitDunder(Key(field, "eq")) == [field, "eq"]
    ensures FiltersOf([FieldEntry(Key(field, "eq"), v, true)] + rest) == Prepend(EqFilter(field, v), FiltersOf(rest))
  {
    var e := FieldEntry(Key(field, "eq"), v, true);
    assert ([e] + rest)[0] == e && ([e] + rest)[1..] == rest;
    if v == VNone {
      match FiltersOf(rest) {
        case Err(_) =>
        case Ok(fs) => assert [] + fs == fs;
      }
    } else {
      assert ParseEntry(e) == Ok(Filter(field, Eq, v));
    }
  }

  /** As written, a given equality field raises TypeError; an absent one is skipped. */
  lemma AsWrittenEqEntry(field: string, v: Value, rest: seq<FieldEntry>)
    requires SplitDunder(Key(field, "eq")) == [field, "eq"]
    ensures FiltersOfAsWritten([EqEntry(field, v)] + rest)
         == if v == VNone then FiltersOfAsWritten(rest) else Err(NotSubscriptable)
  {
    assert ([EqEntry(field, v)] + rest)[1..] == rest;
  }

  /**
    Group listing filters only on name equality and on privacy-flag
    equality; as written, giving either raises TypeError.
  */
  lemma GroupFilterSetFilters(f: GroupFilterSet)
    ensures FiltersOf(GroupEntries(f))
         == Ok(EqFilter("name", StrValue(f.nameEq)) + EqFilter("is_private", BoolValue(f.isPrivateEq)))
    ensures FiltersOfAsWritten(GroupEntries(f))
         == if f.nameEq.None? && f.isPrivateEq.None? then Ok([]) else Err(NotSubscriptable)
  {
    var e := GroupEntries(f);
    assert e == [e[0]] + ([e[1]] + []);
    KeySplits("name");
    KeySplits("is_private");
    FiltersOfEqEntry("is_private", BoolValue(f.isPrivateEq), []);
    FiltersOfEqEntry("name", StrValue(f.nameEq), [e[1]]);
    AsWrittenEqEntry("is_private", BoolValue(f.isPrivateEq), []);
    AsWrittenEqEntry("name", StrValue(f.nameEq), [e[1]]);
    assert EqFilter("is_private", BoolValue(f.isPrivateEq)) + [] == EqFilter("is_private", BoolValue(f.isPrivateEq));
  }

  function EqEntry(field: string, v: Value): FieldEntry
  {
    FieldEntry(Key(field, "eq"), v, true)
  }

  lemma {:induction false} ThreeEqualities(f1: string, v1: Value, f2: string, v2: Value, f3: string, v3: Value)
    requires SplitDunder(Key(f1, "eq")) == [f1, "eq"]
    requires SplitDunder(Key(f2, "eq")) == [f2, "eq"]
    requires SplitDunder(Key(f3, "eq")) == [f3, "eq"]
    ensures FiltersOf([EqEntry(f1, v1), EqEntry(f2, v2), EqEntry(f3, v3)])
         == Ok(EqFilter(f1, v1) + EqFilter(f2, v2) + EqFilter(f3, v3))
  {
    var e := [EqEntry(f1, v1), EqEntry(f2, v2), EqEntry(f3, v3)];
    assert e == [e[0]] + ([e[1]] + ([e[2]] + []));
    FiltersOfEqEntry(f3, v3, []);
    FiltersOfEqEntry(f2, v2, [e[2]] + []);
    FiltersOfEqEntry(f1, v1, [e[1]] + ([e[2]] + []));
    assert EqFilter(f1, v1) + (EqFilter(f2, v2) + (EqFilter(f3, v3) + []))
        == EqFilter(f1, v1) + EqFilter(f2, v2) + EqFilter(f3, v3);
  }

  lemma {:induction false} FourEqualities(f1: string, v1: Value, f2: string, v2: Value, f3: string, v3: Value,
                                          f4: string, v4: Value)
    requires SplitDunder(Key(f1, "eq")) == [f1, "eq"]
    requires SplitDunder(Key(f2, "eq")) == [f2, "eq"]
    requires SplitDunder(Key(f3, "eq")) == [f3, "eq"]
    requires SplitDunder(Key(f4, "eq")) == [f4, "eq"]
    ensures FiltersOf([EqEntry(f1, v1), EqEntry(f2, v2), EqEntry(f3, v3), EqEntry(f4, v4)])
         == Ok(EqFilter(f1, v1) + EqFilter(f2, v2) + EqFilter(f3, v3) + EqFilter(f4, v4))
  {
    var tail := [EqEntry(f2, v2), EqEntry(f3, v3), EqEntry(f4, v4)];
    var a, b, c, d := EqFilter(f1, v1), EqFilter(f2, v2), EqFilter(f3, v3), EqFilter(f4, v4);
    calc {
      FiltersOf([EqEntry(f1, v1), EqEntry(f2, v2), EqEntry(f3, v3), EqEntry(f4, v4)]);
      { assert [EqEntry(f1, v1), EqEntry(f2, v2), EqEntry(f3, v3), EqEntry(f4, v4)] == [EqEntry(f1, v1)] + tail; }
      FiltersOf([EqEntry(f1, v1)] + tail);
      { FiltersOfEqEntry(f1, v1, tail); }
      Prepend(a, FiltersOf(tail));
      { ThreeEqualities(f2, v2, f3, v3, f4, v4); }
      Prepend(a, Ok(b + c + d));
      { assert a + (b + c + d) == a + b + c + d; }
      Ok(a + b + c + d);
    }
  }

  lemma AsWrittenThree(f1: string, v1: Value, f2: string, v2: Value, f3: string, v3: Value)
    requires SplitDunder(Key(f1, "eq")) == [f1, "eq"]
    requires SplitDunder(Key(f2, "eq")) == [f2, "eq"]
    requires SplitDunder(Key(f3, "eq")) == [f3, "eq"]
    ensures FiltersOfAsWritten([EqEntry(f1, v1), EqEntry(f2, v2), EqEntry(f3, v3)])
         == if v1 == VNone && v2 == VNone && v3 == VNone then Ok([]) else Err(NotSubscriptable)
  {
    var e := [EqEntry(f1, v1), EqEntry(f2, v2), EqEntry(f3, v3)];
    assert e == [e[0]] + ([e[1]] + ([e[2]] + []));
    AsWrittenEqEntry(f3, v3, []);
    AsWrittenEqEntry(f2, v2, [e[2]] + []);
    AsWrittenEqEntry(f1, v1, [e[1]] + ([e[2]] + []));
  }

  lemma AsWrittenFour(f1: string, v1: Value, f2: string, v2: Value, f3: string, v3: Value, f4: string, v4: Value)
    requires SplitDunder(Key(f1, "eq")) == [f1, "eq"]
    requires SplitDunder(Key(f2, "eq")) == [f2, "eq"]
    requires SplitDunder(Key(f3, "eq")) == [f3, "eq"]
    requires SplitDunder(Key(f4, "eq")) == [f4, "eq"]
    ensures FiltersOfAsWritten([EqEntry(f1, v1), EqEntry(f2, v2), EqEntry(f3, v3), EqEntry(f4, v4)])
         == if v1 == VNone && v2 == VNone && v3 == VNone && v4 == VNone then Ok([]) else Err(NotSubscriptable)
  {
    var tail := [EqEntry(f2, v2), EqEntry(f3, v3), EqEntry(f4, v4)];
    assert [EqEntry(f1, v1), EqEntry(f2, v2), EqEntry(f3, v3), EqEntry(f4, v4)] == [EqEntry(f1, v1)] + tail;
    AsWrittenThree(f2, v2, f3, v3, f4, v4);
    AsWrittenEqEntry(f1, v1, tail);
  }

  /** The member filter set's equality filters; as written, any given field raises TypeError. */
  lemma MemberFilterSetFilters(f: GroupMemberFilterSet)
    ensures FiltersOf(MemberEntries(f))
         == Ok(EqFilter("group_id", UuidValue(f.groupIdEq)) + EqFilter("user_id", UuidValue(f.userIdEq))
               + EqFilter("is_admin", BoolValue(f.isAdminEq)) + EqFilter("is_owner", BoolValue(f.isOwnerEq)))
    ensures FiltersOfAsWritten(MemberEntries(f))
         == if f.groupIdEq.None? && f.userIdEq.None? && f.isAdminEq.None? && f.isOwnerEq.None? then Ok([])
            else Err(NotSubscriptable)
  {
    KeySplits("group_id");
    KeySplits("user_id");
    KeySplits("is_admin");
    KeySplits("is_owner");
    AsWrittenFour("group_id", UuidValue(f.groupIdEq), "user_id", UuidValue(f.userIdEq),
                  "is_admin", BoolValue(f.isAdminEq), "is_owner", BoolValue(f.isOwnerEq));
    FourEqualities("group_id", UuidValue(f.groupIdEq), "user_id", UuidValue(f.userIdEq),
                   "is_admin", BoolValue(f.isAdminEq), "is_owner", BoolValue(f.isOwnerEq));
  }

  /** The request filter set's equality filters; as written, any given field raises TypeError. */
  lemma RequestFilterSetFilters(f: GroupRequestFilterSet)
    ensures FiltersOf(RequestEntries(f))
         == Ok(EqFilter("group_id", UuidValue(f.groupIdEq)) + EqFilter("user_id", UuidValue(f.userIdEq))
               + EqFilter("status", StatusOptValue(f.statusEq)))
    ensures FiltersOfAsWritten(RequestEntries(f))
         == if f.groupIdEq.None? && f.userIdEq.None? && f.statusEq.None? then Ok([]) else Err(NotSubscriptable)
  {
    KeySplits("group_id");
    KeySplits("user_id");
    KeySplits("status");
    AsWrittenThree("group_id", UuidValue(f.groupIdEq), "user_id", UuidValue(f.userIdEq),
                   "status", StatusOptValue(f.statusEq));
    ThreeEqualities("group_id", UuidValue(f.groupIdEq), "user_id", UuidValue(f.userIdEq),
                    "status", StatusOptValue(f.statusEq));
  }

  /** `GroupFilterSet(**input_filters.model_dump())`. */
  function GroupFilterSetOf(input: GroupInputFilters): GroupFilterSet
  {
    GroupFilterSet(input.nameEq, input.isPrivateEq)
  }

  /** `GroupMemberFilterSet(group_id__eq=g, user_id__eq=None, **filters.model_dump())`. */
  function MemberFilterSetFor(groupId: Uuid, input: GroupMemberInputFilters): GroupMemberFilterSet
  {
    GroupMemberFilterSet(Some(groupId), None, input.isAdminEq, input.isOwnerEq)
  }

  /** Input filters left at their defaults contribute no predicate, as intended and as written. */
  lemma DefaultInputsFilterNothing()
    ensures FiltersOf(GroupEntries(GroupFilterSetOf(GroupInputFilters()))) == Ok([])
    ensures FiltersOfAsWritten(GroupEntries(GroupFilterSetOf(GroupInputFilters()))) == Ok([])
  {
    GroupFilterSetFilters(GroupFilterSetOf(GroupInputFilters()));
  }

  /**
    The member input filters cannot reach group_id: the service's member
    filter set always starts with the group scope, whatever the caller passes.
    As written, that scope is always dumped, so the member filter set always
    raises TypeError.
  */
  lemma MemberScopeIsKept(groupId: Uuid, input: GroupMemberInputFilters)
    ensures FiltersOfAsWritten(MemberEntries(MemberFilterSetFor(groupId, input))) == Err(NotSubscriptable)
    ensures FiltersOf(MemberEntries(MemberFilterSetFor(groupId, input))).Ok?
    ensures var fs := FiltersOf(MemberEntries(MemberFilterSetFor(groupId, input))).value;
            |fs| >= 1 && fs[0] == Filter("group_id", Eq, VUuid(groupId))
            && forall i :: 1 <= i < |fs| ==> fs[i].field in {"is_admin", "is_owner"}
  {
    MemberFilterSetFilters(MemberFilterSetFor(groupId, input));
  }
}
