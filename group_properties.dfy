/**
  What the group service promises, proved about the functions of
  GroupRules: the order in which each operation checks its caller, exactly
  what it writes when it goes through, and what the listings return,
  against reference predicates written independently of the filter engine.
*/
module GroupProperties {
  import opened Wrappers
  import opened FilterBase
  import opened GroupModels
  import opened GroupErrors
  import opened GroupSchemas
  import opened GroupFilters
  import opened Tables
  import opened FakeRepositories
  import opened GroupRules

  // ---- who the caller is ----------------------------------------------------

  /** Some membership row ties the user to the group. */
  ghost predicate InGroup(t: Table<GroupMember>, u: Uuid, g: Uuid)
  {
    exists k :: k in t.rows && t.rows[k].userId == u && t.rows[k].groupId == g
  }

  /** Some pending request of the user for the group is stored. */
  ghost predicate HasPending(t: Table<GroupRequest>, u: Uuid, g: Uuid)
  {
    exists k :: k in t.rows && t.rows[k].userId == u && t.rows[k].groupId == g && t.rows[k].status == Pending
  }

  /** The membership the service finds for the caller is the group's owner. */
  predicate IsOwner(d: Db, u: Uuid, g: Uuid)
    requires d.Valid()
  {
    MemberOf(d.members, u, g).Ok? && MemberOf(d.members, u, g).value.isOwner
  }

  /** The membership the service finds for the caller is an owner or an admin. */
  predicate IsOwnerOrAdmin(d: Db, u: Uuid, g: Uuid)
    requires d.Valid()
  {
    MemberOf(d.members, u, g).Ok? && (MemberOf(d.members, u, g).value.isOwner || MemberOf(d.members, u, g).value.isAdmin)
  }

  /** The request exists and belongs to the group. */
  ghost predicate RequestIn(d: Db, rid: Uuid, g: Uuid)
  {
    rid in d.requests.rows && d.requests.rows[rid].groupId == g
  }

  /** The owners' membership ids of a group. */
  ghost function Owners(t: Table<GroupMember>, g: Uuid): set<Uuid>
  {
    set k | k in t.rows && t.rows[k].groupId == g && t.rows[k].isOwner
  }

  /** No user holds two memberships of one group. */
  ghost predicate UniqueMemberships(t: Table<GroupMember>)
  {
    forall j, k ::
      (j in t.rows && k in t.rows && t.rows[j].userId == t.rows[k].userId && t.rows[j].groupId == t.rows[k].groupId)
      ==> j == k
  }

  /** No user has two pending requests for one group. */
  ghost predicate UniquePending(t: Table<GroupRequest>)
  {
    forall j, k ::
      (&& j in t.rows && k in t.rows && t.rows[j].userId == t.rows[k].userId
       && t.rows[j].groupId == t.rows[k].groupId && t.rows[j].status == Pending && t.rows[k].status == Pending)
      ==> j == k
  }

  /** `get_by_user_and_group_id` succeeds exactly when a membership exists, and returns a stored one. */
  lemma Membership(d: Db, u: Uuid, g: Uuid)
    requires d.Valid()
    ensures MemberOf(d.members, u, g).Ok? <==> InGroup(d.members, u, g)
    ensures MemberOf(d.members, u, g).Err? ==> MemberOf(d.members, u, g).error == DoesNotExist
    ensures MemberOf(d.members, u, g).Ok? ==>
              var m := MemberOf(d.members, u, g).value;
              m.userId == u && m.groupId == g && m.id in d.members.rows && d.members.rows[m.id] == m
  {
    var i := MemberOfFirst(d.members, u, g);
    if MemberOf(d.members, u, g).Ok? {
      var k := d.members.keys[i];
      assert k in d.members.rows && MemberIdOf(d.members.rows[k]) == k;
    }
  }

  /** `get_pending_request_by_user_and_group_id` succeeds exactly when a pending request exists. */
  lemma PendingRequest(t: Table<GroupRequest>, u: Uuid, g: Uuid)
    requires t.Valid()
    ensures PendingOf(t, u, g).Ok? <==> HasPending(t, u, g)
  {
    var i := PendingOfFirst(t, u, g);
    if PendingOf(t, u, g).Ok? {
      assert t.keys[i] in t.rows;
    }
  }

  /** Appending after a match does not change the first match. */
  lemma {:induction false} FirstAppend<T>(xs: seq<T>, ys: seq<T>, p: T -> bool)
    requires First(xs, p).Some?
    ensures First(xs + ys, p) == First(xs, p)
  {
    assert (xs + ys)[0] == xs[0];
    if !p(xs[0]) {
      assert (xs + ys)[1..] == xs[1..] + ys;
      FirstAppend(xs[1..], ys, p);
    }
  }

  /** Persisting a new member leaves every lookup that already succeeded as it was. */
  lemma MemberOfAfterPersist(t: Table<GroupMember>, k: Uuid, m: GroupMember, u: Uuid, g: Uuid)
    requires t.Valid() && k !in t.rows && MemberOf(t, u, g).Ok?
    ensures Persisted(t, k, m).table.Valid()
    ensures MemberOf(Persisted(t, k, m).table, u, g) == MemberOf(t, u, g)
  {
    PersistThenGet(t, k, m);
    FirstAppend(t.Values(), [m], IsMembership(u, g));
  }

  // ---- update_group ---------------------------------------------------------

  /** An optional patch that is not owner_id is applied, and the loop goes on with the rest. */
  lemma SetAttrsStep(g: Group, o: seq<FieldPatch>, rest: seq<FieldPatch>)
    requires |o| <= 1 && forall i :: 0 <= i < |o| ==> PatchKey(o[i]) != "owner_id"
    ensures SetAttrs(g, o + rest) == SetAttrs(if o == [] then g else SetAttr(g, o[0]).value, rest)
  {
    if o == [] {
      assert o + rest == rest;
    } else {
      assert (o + rest)[0] == o[0] && (o + rest)[1..] == rest;
    }
  }

  /** One optional item of the dump sets its own field, and the loop goes on with the rest. */
  lemma PrivateStep(g: Group, o: Option<bool>, rest: seq<FieldPatch>)
    ensures SetAttrs(g, (if o.Some? then [SetIsPrivate(o.value)] else []) + rest)
         == SetAttrs(if o.Some? then g.(isPrivate := o.value) else g, rest)
  {
    SetAttrsStep(g, if o.Some? then [SetIsPrivate(o.value)] else [], rest);
  }

  lemma NameStep(g: Group, o: Option<string>, rest: seq<FieldPatch>)
    ensures SetAttrs(g, (if o.Some? then [SetName(o.value)] else []) + rest)
         == SetAttrs(if o.Some? then g.(name := o.value) else g, rest)
  {
    SetAttrsStep(g, if o.Some? then [SetName(o.value)] else [], rest);
  }

  lemma DescriptionStep(g: Group, o: Option<Option<string>>)
    ensures SetAttrs(g, if o.Some? then [SetDescription(o.value)] else [])
         == Ok(if o.Some? then g.(description := o.value) else g)
  {
    var e := if o.Some? then [SetDescription(o.value)] else [];
    SetAttrsStep(g, e, []);
    assert e + [] == e;
  }

  /** Without owner_id, the loop sets is_private, name and description in turn to the given values. */
  lemma DumpAppliesFields(g: Group, schema: UpdateGroupSchema)
    requires schema.ownerId.None?
    ensures SetAttrs(g, Dump(schema)) == Ok(Patched(g, schema))
  {
    var n := if schema.name.Some? then [SetName(schema.name.value)] else [];
    var e := if schema.description.Some? then [SetDescription(schema.description.value)] else [];
    var g1 := if schema.isPrivate.Some? then g.(isPrivate := schema.isPrivate.value) else g;
    var g2 := if schema.name.Some? then g1.(name := schema.name.value) else g1;
    var p := if schema.isPrivate.Some? then [SetIsPrivate(schema.isPrivate.value)] else [];
    assert Dump(schema) == p + (n + e) by {
      assert [] + (p + (n + e)) == p + (n + e);
    }
    PrivateStep(g, schema.isPrivate, n + e);
    NameStep(g1, schema.name, e);
    DescriptionStep(g2, schema.description);
  }

  /**
    The setattr loop replaces exactly the fields the caller gave; a given
    owner_id, which a Group does not have, raises before anything is set.
  */
  lemma DumpApplies(g: Group, schema: UpdateGroupSchema)
    ensures SetAttrs(g, Dump(schema)) == if schema.ownerId.Some? then Err(NoSuchField) else Ok(Patched(g, schema))
  {
    if schema.ownerId.Some? {
      assert PatchKey(Dump(schema)[0]) == "owner_id";
    } else {
      DumpAppliesFields(g, schema);
    }
  }

  /**
    update_group checks, in order, that the group exists, that the caller is
    a member and that the caller is its owner; it then stores the group with
    every given field replaced, in its place.
  */
  lemma UpdateGroupOutcome(d: Db, u: Uuid, g: Uuid, schema: UpdateGroupSchema)
    requires d.Valid()
    ensures g !in d.groups.rows ==> UpdateGroup(d, u, g, schema) == Fail(d, DoesNotExist)
    ensures g in d.groups.rows && !InGroup(d.members, u, g) ==> UpdateGroup(d, u, g, schema) == Fail(d, NotAGroupMember)
    ensures g in d.groups.rows && InGroup(d.members, u, g) && !IsOwner(d, u, g) ==>
              UpdateGroup(d, u, g, schema) == Fail(d, NotAGroupOwner)
    ensures g in d.groups.rows && IsOwner(d, u, g) && schema.ownerId.Some? ==>
              UpdateGroup(d, u, g, schema) == Fail(d, NoSuchField)
    ensures g in d.groups.rows && IsOwner(d, u, g) && schema.ownerId.None? ==>
              UpdateGroup(d, u, g, schema)
              == Outcome(d.(groups := d.groups.Set(g, Patched(d.groups.rows[g], schema))), Ok(()))
  {
    Membership(d, u, g);
    if g in d.groups.rows {
      assert GroupIdOf(d.groups.rows[g]) == g;
      DumpApplies(d.groups.rows[g], schema);
    }
  }

  /** The success case of update_group on its own: the owner's update stores the patched group. */
  lemma UpdateGroupStores(d: Db, u: Uuid, g: Uuid, schema: UpdateGroupSchema)
    requires d.Valid() && g in d.groups.rows && IsOwner(d, u, g) && schema.ownerId.None?
    ensures UpdateGroup(d, u, g, schema) == Outcome(d.(groups := d.groups.Set(g, Patched(d.groups.rows[g], schema))), Ok(()))
  {
    assert GroupIdOf(d.groups.rows[g]) == g;
    DumpApplies(d.groups.rows[g], schema);
  }

  /** update_group goes through exactly when the group exists, the caller owns it and no owner_id is given. */
  lemma UpdateGroupSucceeds(d: Db, u: Uuid, g: Uuid, schema: UpdateGroupSchema)
    requires d.Valid()
    ensures UpdateGroup(d, u, g, schema).result.Ok? <==> g in d.groups.rows && IsOwner(d, u, g) && schema.ownerId.None?
  {
    UpdateGroupOutcome(d, u, g, schema);
  }

  /** Applying the same update twice leaves the database as applying it once. */
  lemma UpdateGroupIdempotent(d: Db, u: Uuid, g: Uuid, schema: UpdateGroupSchema)
    requires d.Valid() && UpdateGroup(d, u, g, schema).result.Ok?
    ensures UpdateGroup(d, u, g, schema).db.Valid()
    ensures UpdateGroup(UpdateGroup(d, u, g, schema).db, u, g, schema) == UpdateGroup(d, u, g, schema)
  {
    UpdateGroupSucceeds(d, u, g, schema);
    UpdateGroupStores(d, u, g, schema);
    var before := d.groups.rows[g];
    var after := Patched(before, schema);
    var d1 := d.(groups := d.groups.Set(g, after));
    assert d1.Valid() by {
      assert GroupIdOf(before) == g;
      assert Keyed(d1.groups, GroupIdOf);
    }
    assert d1.groups.Set(g, Patched(d1.groups.rows[g], schema)) == d1.groups by {
      assert Patched(after, schema) == after;
    }
    assert IsOwner(d1, u, g) by {
      assert d1.members == d.members;
    }
    UpdateGroupStores(d1, u, g, schema);
  }

  /**
    update_group as written never writes: it refuses where the intended
    operation refuses, and where the caller owns the group it raises on the
    owner_id setattr, which comes first in every dump, instead of storing it.
  */
  lemma UpdateGroupAsWrittenNeverWrites(d: Db, u: Uuid, g: Uuid, schema: UpdateGroupSchema)
    requires d.Valid()
    ensures UpdateGroupAsWritten(d, u, g, schema).db == d
    ensures UpdateGroupAsWritten(d, u, g, schema).result.Err?
    ensures g in d.groups.rows && IsOwner(d, u, g) ==> UpdateGroupAsWritten(d, u, g, schema) == Fail(d, NoSuchField)
    ensures !(g in d.groups.rows && IsOwner(d, u, g)) ==>
              UpdateGroupAsWritten(d, u, g, schema) == UpdateGroup(d, u, g, schema)
  {
    UpdateGroupOutcome(d, u, g, schema);
    if g in d.groups.rows {
      assert GroupIdOf(d.groups.rows[g]) == g;
    }
  }

  /** A group with its owner's membership, the database of the witnesses below. */
  function OwnedGroup(): (d: Db)
    ensures d.Valid() && 1 in d.groups.rows && IsOwner(d, 7, 1)
  {
    var d := Db(Table([1], map[1 := Group(1, "group", None, false)]),
                Table([2], map[2 := GroupMember(2, 7, 1, false, true)]),
                Table([3], map[3 := GroupRequest(3, 8, 1, None, Pending)]));
    assert d.members.Values() == [GroupMember(2, 7, 1, false, true)];
    d
  }

  /**
    The owner renaming their group with a body that gives all four fields,
    owner_id as null (the schema's None), so that it passes validation as
    written: the intended update stores it, the written one raises.
  */
  lemma OwnerIdWitness()
    ensures var schema := UpdateGroupSchema(None, Some(false), Some("renamed"), Some(None));
            && ValidateUpdateGroupAsWritten(Some(None), Some(Some(false)), Some(Some("renamed")), Some(None)) == Ok(schema)
            && UpdateGroup(OwnedGroup(), 7, 1, schema).result == Ok(())
            && UpdateGroupAsWritten(OwnedGroup(), 7, 1, schema) == Fail(OwnedGroup(), NoSuchField)
  {
    var schema := UpdateGroupSchema(None, Some(false), Some("renamed"), Some(None));
    UpdateGroupOutcome(OwnedGroup(), 7, 1, schema);
    UpdateGroupAsWrittenNeverWrites(OwnedGroup(), 7, 1, schema);
  }

  // ---- create_group ---------------------------------------------------------

  /**
    With fresh ids, a new group gets exactly one member: its creator, as
    owner and not admin, whom the membership lookup then finds.
  */
  lemma CreateGroupMakesOwner(d: Db, u: Uuid, schema: CreateGroupSchema, gid: Uuid, mid: Uuid)
    requires d.Valid() && gid !in d.groups.rows && mid !in d.members.rows
    requires forall k :: k in d.members.rows ==> d.members.rows[k].groupId != gid
    ensures var o := CreateGroup(d, u, schema, gid, mid);
            && o.result == Ok(Group(gid, schema.name, schema.description, schema.isPrivate))
            && o.db.groups.rows == d.groups.rows[gid := o.result.value]
            && o.db.members.rows == d.members.rows[mid := GroupMember(mid, u, gid, false, true)]
            && o.db.requests == d.requests
            && MemberOf(o.db.members, u, gid) == Ok(GroupMember(mid, u, gid, false, true))
            && (forall k :: k in o.db.members.rows && o.db.members.rows[k].groupId == gid ==> k == mid)
  {
    var o := CreateGroup(d, u, schema, gid, mid);
    assert o.db.Valid();
    Membership(o.db, u, gid);
    assert InGroup(o.db.members, u, gid) by {
      assert mid in o.db.members.rows;
    }
  }

  /**
    create_group is not atomic: when the member id is taken the group stays
    stored, with no member at all, and the call raises.  A taken group id
    raises before anything is written.
  */
  lemma CreateGroupPartial(d: Db, u: Uuid, schema: CreateGroupSchema, gid: Uuid, mid: Uuid)
    requires d.Valid()
    requires forall k :: k in d.members.rows ==> d.members.rows[k].groupId != gid
    ensures gid in d.groups.rows ==> CreateGroup(d, u, schema, gid, mid) == Fail(d, AlreadyExists)
    ensures gid !in d.groups.rows && mid in d.members.rows ==>
              var o := CreateGroup(d, u, schema, gid, mid);
              && o.result == Err(AlreadyExists)
              && Lookup(o.db.groups, gid) == Ok(Group(gid, schema.name, schema.description, schema.isPrivate))
              && o.db.members == d.members
              && Owners(o.db.members, gid) == {}
  {
  }

  // ---- delete_group ---------------------------------------------------------

  /**
    delete_group checks like update_group, then removes the group, every
    membership of it and every request for it, and nothing else.
  */
  lemma DeleteGroupOutcome(d: Db, u: Uuid, g: Uuid)
    requires d.Valid()
    ensures g !in d.groups.rows ==> DeleteGroup(d, u, g) == Fail(d, DoesNotExist)
    ensures g in d.groups.rows && !InGroup(d.members, u, g) ==> DeleteGroup(d, u, g) == Fail(d, NotAGroupMember)
    ensures g in d.groups.rows && InGroup(d.members, u, g) && !IsOwner(d, u, g) ==>
              DeleteGroup(d, u, g) == Fail(d, NotAGroupOwner)
    ensures g in d.groups.rows && IsOwner(d, u, g) ==>
              var o := DeleteGroup(d, u, g);
              && o.result == Ok(())
              && o.db.groups.rows == d.groups.rows - {g}
              && (forall k :: k in o.db.members.rows <==> k in d.members.rows && d.members.rows[k].groupId != g)
              && (forall k :: k in o.db.members.rows ==> o.db.members.rows[k] == d.members.rows[k])
              && (forall k :: k in o.db.requests.rows <==> k in d.requests.rows && d.requests.rows[k].groupId != g)
              && (forall k :: k in o.db.requests.rows ==> o.db.requests.rows[k] == d.requests.rows[k])
  {
    Membership(d, u, g);
    DeleteByGroupIdRows(d, g);
    if g in d.groups.rows {
      assert GroupIdOf(d.groups.rows[g]) == g;
    }
  }

  // ---- create_group_request -------------------------------------------------

  /**
    create_group_request (as intended) refuses a user with a pending request
    for the group, then a member of it; otherwise it stores one new PENDING
    request with the given message.  The group itself is not looked up.
  */
  lemma CreateGroupRequestOutcome(d: Db, u: Uuid, g: Uuid, schema: CreateGroupRequestSchema, rid: Uuid)
    requires d.Valid()
    ensures HasPending(d.requests, u, g) ==>
              CreateGroupRequest(d, u, g, schema, rid) == Fail(d, AlreadyRequestedToJoinGroup)
    ensures !HasPending(d.requests, u, g) && InGroup(d.members, u, g) ==>
              CreateGroupRequest(d, u, g, schema, rid) == Fail(d, AlreadyAGroupMember)
    ensures !HasPending(d.requests, u, g) && !InGroup(d.members, u, g) && rid in d.requests.rows ==>
              CreateGroupRequest(d, u, g, schema, rid) == Fail(d, AlreadyExists)
    ensures !HasPending(d.requests, u, g) && !InGroup(d.members, u, g) && rid !in d.requests.rows ==>
              var o := CreateGroupRequest(d, u, g, schema, rid);
              && o.result == Ok(GroupRequest(rid, u, g, schema.message, Pending))
              && o.db == d.(requests := d.requests.Set(rid, o.result.value))
    ensures UniquePending(d.requests) ==> UniquePending(CreateGroupRequest(d, u, g, schema, rid).db.requests)
  {
    Membership(d, u, g);
    PendingRequest(d.requests, u, g);
    if UniquePending(d.requests) {
      CreateGroupRequestKeepsUnique(d, u, g, schema, rid);
    }
  }

  lemma CreateGroupRequestKeepsUnique(d: Db, u: Uuid, g: Uuid, schema: CreateGroupRequestSchema, rid: Uuid)
    requires d.Valid() && UniquePending(d.requests)
    ensures UniquePending(CreateGroupRequest(d, u, g, schema, rid).db.requests)
  {
    PendingRequest(d.requests, u, g);
  }

  /** Once a request has been created, asking again fails without writing anything. */
  lemma CreateGroupRequestOnce(d: Db, u: Uuid, g: Uuid, schema: CreateGroupRequestSchema, rid: Uuid,
                               again: CreateGroupRequestSchema, rid2: Uuid)
    requires d.Valid() && CreateGroupRequest(d, u, g, schema, rid).result.Ok?
    ensures CreateGroupRequest(d, u, g, schema, rid).db.Valid()
    ensures var d1 := CreateGroupRequest(d, u, g, schema, rid).db;
            CreateGroupRequest(d1, u, g, again, rid2) == Fail(d1, AlreadyRequestedToJoinGroup)
  {
    CreateGroupRequestOutcome(d, u, g, schema, rid);
    Membership(d, u, g);
    PendingRequest(d.requests, u, g);
    var d1 := CreateGroupRequest(d, u, g, schema, rid).db;
    assert d1.Valid();
    PendingRequest(d1.requests, u, g);
    assert HasPending(d1.requests, u, g) by {
      assert rid in d1.requests.rows;
    }
  }

  /**
    create_group_request as written never stores a request: wherever the
    intended operation would create one, it raises TypeError instead.
  */
  lemma CreateGroupRequestAsWrittenRaises(d: Db, u: Uuid, g: Uuid, schema: CreateGroupRequestSchema, rid: Uuid)
    requires d.Valid()
    ensures CreateGroupRequestAsWritten(d, u, g, schema, rid).db == d
    ensures CreateGroupRequestAsWritten(d, u, g, schema, rid).result.Err?
    ensures CreateGroupRequest(d, u, g, schema, rid).result.Ok? ==>
              CreateGroupRequestAsWritten(d, u, g, schema, rid) == Fail(d, DuplicateKeyword)
  {
  }

  /** The smallest case: on an empty database the intended operation succeeds and the written one raises. */
  lemma DuplicateKeywordWitness()
    ensures var d := Db(Empty(), Empty(), Empty());
            && d.Valid()
            && CreateGroupRequest(d, 1, 2, CreateGroupRequestSchema(1, 2, None), 3).result.Ok?
            && CreateGroupRequestAsWritten(d, 1, 2, CreateGroupRequestSchema(1, 2, None), 3).result == Err(DuplicateKeyword)
  {
    var d: Db := Db(Empty(), Empty(), Empty());
    assert d.members.Values() == [] && d.requests.Values() == [];
  }

  // ---- create_group_member --------------------------------------------------

  /**
    create_group_member needs the group to exist and the user not to be a
    member of it yet; it stores one new member, never an owner, whom the
    lookup then finds, and keeps memberships unique.
  */
  lemma CreateGroupMemberOutcome(d: Db, schema: CreateGroupMemberSchema, mid: Uuid)
    requires d.Valid()
    ensures schema.groupId !in d.groups.rows ==> CreateGroupMember(d, schema, mid) == Fail(d, DoesNotExist)
    ensures schema.groupId in d.groups.rows && InGroup(d.members, schema.userId, schema.groupId) ==>
              CreateGroupMember(d, schema, mid) == Fail(d, AlreadyAGroupMember)
    ensures schema.groupId in d.groups.rows && !InGroup(d.members, schema.userId, schema.groupId) && mid in d.members.rows ==>
              CreateGroupMember(d, schema, mid) == Fail(d, AlreadyExists)
    ensures schema.groupId in d.groups.rows && !InGroup(d.members, schema.userId, schema.groupId) && mid !in d.members.rows ==>
              var o := CreateGroupMember(d, schema, mid);
              && o.result == Ok(GroupMember(mid, schema.userId, schema.groupId, schema.isAdmin, false))
              && o.db == d.(members := d.members.Set(mid, o.result.value))
              && MemberOf(o.db.members, schema.userId, schema.groupId) == o.result
    ensures CreateGroupMember(d, schema, mid).db.Valid()
    ensures UniqueMemberships(d.members) ==> UniqueMemberships(CreateGroupMember(d, schema, mid).db.members)
  {
    Membership(d, schema.userId, schema.groupId);
    var o := CreateGroupMember(d, schema, mid);
    assert o.db.Valid();
    if o.result.Ok? {
      Membership(o.db, schema.userId, schema.groupId);
      assert InGroup(o.db.members, schema.userId, schema.groupId) by {
        assert mid in o.db.members.rows;
      }
    }
  }

  // ---- update_group_request -------------------------------------------------

  /**
    update_group_request refuses, in order: an unknown request id, a request
    of another group, a caller with no membership (the lookup's own
    DoesNotExist), a plain member, and a request no longer pending; none of
    these writes anything.
  */
  lemma UpdateGroupRequestErrors(d: Db, u: Uuid, g: Uuid, rid: Uuid, schema: UpdateGroupRequestSchema, mid: Uuid)
    requires d.Valid()
    ensures !RequestIn(d, rid, g) ==> UpdateGroupRequest(d, u, g, rid, schema, mid) == Fail(d, DoesNotExist)
    ensures RequestIn(d, rid, g) && !InGroup(d.members, u, g) ==>
              UpdateGroupRequest(d, u, g, rid, schema, mid) == Fail(d, DoesNotExist)
    ensures RequestIn(d, rid, g) && InGroup(d.members, u, g) && !IsOwnerOrAdmin(d, u, g) ==>
              UpdateGroupRequest(d, u, g, rid, schema, mid) == Fail(d, NotAGroupOwnerOrAdmin)
    ensures RequestIn(d, rid, g) && IsOwnerOrAdmin(d, u, g) && d.requests.rows[rid].status != Pending ==>
              UpdateGroupRequest(d, u, g, rid, schema, mid) == Fail(d, RequestNotPending)
  {
    Membership(d, u, g);
  }

  /** Declining a pending request records the status and adds no member. */
  lemma DeclineRequest(d: Db, u: Uuid, g: Uuid, rid: Uuid, mid: Uuid)
    requires d.Valid() && RequestIn(d, rid, g) && IsOwnerOrAdmin(d, u, g)
    requires d.requests.rows[rid].status == Pending
    ensures UpdateGroupRequest(d, u, g, rid, UpdateGroupRequestSchema(Declined), mid)
         == Outcome(d.(requests := d.requests.Set(rid, d.requests.rows[rid].(status := Declined))), Ok(()))
  {
    assert RequestIdOf(d.requests.rows[rid]) == rid;
  }

  /**
    Any other new status, PENDING included, is recorded and makes the
    request's author a member of the group: not admin, not owner.
  */
  lemma AcceptRequest(d: Db, u: Uuid, g: Uuid, rid: Uuid, schema: UpdateGroupRequestSchema, mid: Uuid)
    requires d.Valid() && RequestIn(d, rid, g) && IsOwnerOrAdmin(d, u, g)
    requires d.requests.rows[rid].status == Pending && schema.status != Declined
    requires g in d.groups.rows && mid !in d.members.rows && !InGroup(d.members, d.requests.rows[rid].userId, g)
    ensures var q := d.requests.rows[rid];
            var o := UpdateGroupRequest(d, u, g, rid, schema, mid);
            && o.result == Ok(())
            && o.db.requests == d.requests.Set(rid, q.(status := schema.status))
            && o.db.members == d.members.Set(mid, GroupMember(mid, q.userId, g, false, false))
            && o.db.groups == d.groups
            && MemberOf(o.db.members, q.userId, g) == Ok(GroupMember(mid, q.userId, g, false, false))
  {
    var q := d.requests.rows[rid];
    assert RequestIdOf(q) == rid;
    var d1 := d.(requests := d.requests.Set(rid, q.(status := schema.status)));
    assert d1.Valid();
    CreateGroupMemberOutcome(d1, CreateGroupMemberSchema(q.userId, g, false), mid);
  }

  /**
    Past the checks, with any status but DECLINED, the new status is stored
    before create_group_member runs, so its refusals leave that write behind:
    a missing group gives DoesNotExist, an author who already belongs to the
    group (added while the request was pending) AlreadyAGroupMember, and a
    taken membership id AlreadyExists.
  */
  lemma AcceptRequestRefused(d: Db, u: Uuid, g: Uuid, rid: Uuid, schema: UpdateGroupRequestSchema, mid: Uuid)
    requires d.Valid() && RequestIn(d, rid, g) && IsOwnerOrAdmin(d, u, g)
    requires d.requests.rows[rid].status == Pending && schema.status != Declined
    ensures var q := d.requests.rows[rid];
            var d1 := d.(requests := d.requests.Set(rid, q.(status := schema.status)));
            var o := UpdateGroupRequest(d, u, g, rid, schema, mid);
            && (g !in d.groups.rows ==> o == Fail(d1, DoesNotExist))
            && (g in d.groups.rows && InGroup(d.members, q.userId, g) ==> o == Fail(d1, AlreadyAGroupMember))
            && (g in d.groups.rows && !InGroup(d.members, q.userId, g) && mid in d.members.rows ==>
                  o == Fail(d1, AlreadyExists))
  {
    var q := d.requests.rows[rid];
    assert RequestIdOf(q) == rid;
    var d1 := d.(requests := d.requests.Set(rid, q.(status := schema.status)));
    assert d1.Valid();
    CreateGroupMemberOutcome(d1, CreateGroupMemberSchema(q.userId, g, false), mid);
  }

  /**
    update_group_request as written never adds a member: it agrees with the
    intended operation on every refusal and on DECLINED; past the checks with
    any other status it stores the status and then raises ValidationError.
  */
  lemma UpdateGroupRequestAsWrittenAddsNoMember(d: Db, u: Uuid, g: Uuid, rid: Uuid, schema: UpdateGroupRequestSchema, mid: Uuid)
    requires d.Valid()
    ensures UpdateGroupRequestAsWritten(d, u, g, rid, schema).db.members == d.members
    ensures UpdateGroupRequestAsWritten(d, u, g, rid, schema).db.groups == d.groups
    ensures !(RequestIn(d, rid, g) && IsOwnerOrAdmin(d, u, g) && d.requests.rows[rid].status == Pending) ==>
              UpdateGroupRequestAsWritten(d, u, g, rid, schema) == UpdateGroupRequest(d, u, g, rid, schema, mid)
    ensures schema.status == Declined ==>
              UpdateGroupRequestAsWritten(d, u, g, rid, schema) == UpdateGroupRequest(d, u, g, rid, schema, mid)
    ensures RequestIn(d, rid, g) && IsOwnerOrAdmin(d, u, g) && d.requests.rows[rid].status == Pending && schema.status != Declined ==>
              UpdateGroupRequestAsWritten(d, u, g, rid, schema)
              == Fail(d.(requests := d.requests.Set(rid, d.requests.rows[rid].(status := schema.status))), MissingField)
  {
    UpdateGroupRequestErrors(d, u, g, rid, schema, mid);
    Membership(d, u, g);
    if RequestIn(d, rid, g) {
      assert RequestIdOf(d.requests.rows[rid]) == rid;
    }
  }

  /** Accepting the pending request of user 8: the intended operation adds them, the written one raises. */
  lemma MissingIsAdminWitness()
    ensures var schema := UpdateGroupRequestSchema(Accepted);
            && UpdateGroupRequest(OwnedGroup(), 7, 1, 3, schema, 4).result == Ok(())
            && UpdateGroupRequestAsWritten(OwnedGroup(), 7, 1, 3, schema).result == Err(MissingField)
            && UpdateGroupRequestAsWritten(OwnedGroup(), 7, 1, 3, schema).db.members == OwnedGroup().members
  {
    var d := OwnedGroup();
    var schema := UpdateGroupRequestSchema(Accepted);
    assert !InGroup(d.members, 8, 1);
    AcceptRequest(d, 7, 1, 3, schema, 4);
    UpdateGroupRequestAsWrittenAddsNoMember(d, 7, 1, 3, schema, 4);
  }

  /** A request leaves PENDING once: after a decision, deciding again fails without writing. */
  lemma RequestDecidedOnce(d: Db, u: Uuid, g: Uuid, rid: Uuid, schema: UpdateGroupRequestSchema, mid: Uuid,
                           again: UpdateGroupRequestSchema, mid2: Uuid)
    requires d.Valid() && schema.status != Pending
    requires UpdateGroupRequest(d, u, g, rid, schema, mid).result.Ok?
    ensures UpdateGroupRequest(d, u, g, rid, schema, mid).db.Valid()
    ensures var d2 := UpdateGroupRequest(d, u, g, rid, schema, mid).db;
            UpdateGroupRequest(d2, u, g, rid, again, mid2) == Fail(d2, RequestNotPending)
  {
    UpdateGroupRequestErrors(d, u, g, rid, schema, mid);
    Membership(d, u, g);
    var q := d.requests.rows[rid];
    assert RequestIdOf(q) == rid;
    var d1 := d.(requests := d.requests.Set(rid, q.(status := schema.status)));
    assert d1.Valid();
    assert MemberOf(d1.members, u, g) == MemberOf(d.members, u, g);
    var d2 := UpdateGroupRequest(d, u, g, rid, schema, mid).db;
    if schema.status != Declined {
      var ms := CreateGroupMemberSchema(q.userId, g, false);
      CreateGroupMemberOutcome(d1, ms, mid);
      MemberOfAfterPersist(d1.members, mid, GroupMember(mid, q.userId, g, false, false), u, g);
    }
    assert d2.Valid();
    assert MemberOf(d2.members, u, g) == MemberOf(d.members, u, g);
    assert d2.requests.rows[rid] == q.(status := schema.status);
    UpdateGroupRequestErrors(d2, u, g, rid, again, mid2);
  }

  // ---- delete_group_request -------------------------------------------------

  /**
    delete_group_request lets only the author withdraw a pending request; a
    request of another group and one of another author raise the same
    DoesNotExist, so neither can be told apart from a missing one.
  */
  lemma DeleteGroupRequestOutcome(d: Db, u: Uuid, g: Uuid, rid: Uuid)
    requires d.Valid()
    ensures !RequestIn(d, rid, g) ==> DeleteGroupRequest(d, u, g, rid) == Fail(d, DoesNotExist)
    ensures RequestIn(d, rid, g) && d.requests.rows[rid].userId != u ==>
              DeleteGroupRequest(d, u, g, rid) == Fail(d, DoesNotExist)
    ensures RequestIn(d, rid, g) && d.requests.rows[rid].userId == u && d.requests.rows[rid].status != Pending ==>
              DeleteGroupRequest(d, u, g, rid) == Fail(d, RequestNotPending)
    ensures RequestIn(d, rid, g) && d.requests.rows[rid].userId == u && d.requests.rows[rid].status == Pending ==>
              DeleteGroupRequest(d, u, g, rid) == Outcome(d.(requests := d.requests.Del(rid)), Ok(()))
  {
    if rid in d.requests.rows {
      assert RequestIdOf(d.requests.rows[rid]) == rid;
    }
  }

  // ---- reading requests -----------------------------------------------------

  /**
    get_group_request shows a request of the group to its owner and admins,
    and to its author when the author is not a member; a plain member is
    refused even for their own request.
  */
  lemma GetGroupRequestAccess(d: Db, u: Uuid, g: Uuid, rid: Uuid)
    requires d.Valid()
    ensures GetGroupRequest(d, u, g, rid).db == d
    ensures GetGroupRequest(d, u, g, rid).result.Ok? <==>
              RequestIn(d, rid, g)
              && (IsOwnerOrAdmin(d, u, g) || (!InGroup(d.members, u, g) && d.requests.rows[rid].userId == u))
    ensures GetGroupRequest(d, u, g, rid).result.Ok? ==> GetGroupRequest(d, u, g, rid).result.value == d.requests.rows[rid]
    ensures !RequestIn(d, rid, g) ==> GetGroupRequest(d, u, g, rid).result == Err(DoesNotExist)
    ensures RequestIn(d, rid, g) && InGroup(d.members, u, g) && !IsOwnerOrAdmin(d, u, g) ==>
              GetGroupRequest(d, u, g, rid).result == Err(NotAGroupOwnerOrAdmin)
    ensures RequestIn(d, rid, g) && !InGroup(d.members, u, g) && d.requests.rows[rid].userId != u ==>
              GetGroupRequest(d, u, g, rid).result == Err(NotARequestOwner)
  {
    Membership(d, u, g);
  }

  // ---- listings -------------------------------------------------------------

  /** The groups a group filter set selects, stated without the filter engine. */
  function GroupMatches(f: GroupFilterSet): Group -> bool
  {
    (x: Group) => (f.nameEq.None? || x.name == f.nameEq.value) && (f.isPrivateEq.None? || x.isPrivate == f.isPrivateEq.value)
  }

  /** The memberships a member filter set selects. */
  function MemberMatches(f: GroupMemberFilterSet): GroupMember -> bool
  {
    (m: GroupMember) =>
      && (f.groupIdEq.None? || m.groupId == f.groupIdEq.value)
      && (f.userIdEq.None? || m.userId == f.userIdEq.value)
      && (f.isAdminEq.None? || m.isAdmin == f.isAdminEq.value)
      && (f.isOwnerEq.None? || m.isOwner == f.isOwnerEq.value)
  }

  /** The requests a request filter set selects. */
  function RequestMatches(f: GroupRequestFilterSet): GroupRequest -> bool
  {
    (q: GroupRequest) =>
      && (f.groupIdEq.None? || q.groupId == f.groupIdEq.value)
      && (f.userIdEq.None? || q.userId == f.userIdEq.value)
      && (f.statusEq.None? || q.status == f.statusEq.value)
  }

  lemma {:induction false} AllPassAppend(a: seq<Filter>, b: seq<Filter>, item: map<string, Value>)
    requires AllPass(a, item).Ok? && AllPass(b, item).Ok?
    ensures AllPass(a + b, item) == Ok(AllPass(a, item).value && AllPass(b, item).value)
  {
    if a == [] {
      assert a + b == b;
    } else {
      assert (a + b)[0] == a[0] && (a + b)[1..] == a[1..] + b;
      if Apply(a[0], item) == Ok(true) {
        AllPassAppend(a[1..], b, item);
      }
    }
  }

  /** One equality filter passes exactly when the field is absent from the filter set or equal. */
  lemma EqFilterPasses(field: string, v: Value, item: map<string, Value>)
    requires field in item
    ensures AllPass(EqFilter(field, v), item) == Ok(v == VNone || PyEq(item[field], v))
  {
    if v != VNone {
      assert [Filter(field, Eq, v)][1..] == [];
    }
  }

  lemma UuidFilterPasses(field: string, o: Option<Uuid>, item: map<string, Value>, x: Uuid)
    requires field in item && item[field] == VUuid(x)
    ensures AllPass(EqFilter(field, UuidValue(o)), item) == Ok(o.None? || x == o.value)
  {
    EqFilterPasses(field, UuidValue(o), item);
  }

  lemma BoolFilterPasses(field: string, o: Option<bool>, item: map<string, Value>, x: bool)
    requires field in item && item[field] == VBool(x)
    ensures AllPass(EqFilter(field, BoolValue(o)), item) == Ok(o.None? || x == o.value)
  {
    EqFilterPasses(field, BoolValue(o), item);
  }

  lemma {:induction false} FilteredCongruent<T>(xs: seq<T>, p: T -> bool, q: T -> bool)
    requires forall x :: x in xs ==> p(x) == q(x)
    ensures Filtered(xs, p) == Filtered(xs, q)
  {
    if xs != [] {
      assert forall x :: x in xs[1..] ==> x in xs;
      FilteredCongruent(xs[1..], p, q);
    }
  }

  /** A listing whose filters never raise is the records the reference predicate accepts, in order. */
  lemma ListingIs<T>(t: Table<T>, entries: seq<FieldEntry>, filters: seq<Filter>, fields: T -> map<string, Value>,
                     p: T -> bool)
    requires t.Valid() && FiltersOf(entries) == Ok(filters)
    requires forall x :: AllPass(filters, fields(x)) == Ok(p(x))
    ensures ManyOf(t, Some(entries), fields) == Ok(Filtered(t.Values(), p))
  {
    MatchingFiltered(t.Values(), filters, fields);
    FilteredCongruent(t.Values(), PassesAll(filters, fields), p);
  }

  /** The two equality filters of a group filter set pass a group exactly when GroupMatches does. */
  lemma GroupFiltersAgree(f: GroupFilterSet, x: Group)
    ensures AllPass(EqFilter("name", StrValue(f.nameEq)) + EqFilter("is_private", BoolValue(f.isPrivateEq)),
                    GroupFields(x))
            == Ok(GroupMatches(f)(x))
  {
    var item := GroupFields(x);
    assert item["name"] == VStr(x.name) && item["is_private"] == VBool(x.isPrivate);
    EqFilterPasses("name", StrValue(f.nameEq), item);
    BoolFilterPasses("is_private", f.isPrivateEq, item, x.isPrivate);
    AllPassAppend(EqFilter("name", StrValue(f.nameEq)), EqFilter("is_private", BoolValue(f.isPrivateEq)), item);
  }

  lemma GroupListing(t: Table<Group>, f: GroupFilterSet)
    requires t.Valid()
    ensures ManyOf(t, Some(GroupEntries(f)), GroupFields) == Ok(Filtered(t.Values(), GroupMatches(f)))
  {
    GroupFilterSetFilters(f);
    var filters := EqFilter("name", StrValue(f.nameEq)) + EqFilter("is_private", BoolValue(f.isPrivateEq));
    forall x: Group ensures AllPass(filters, GroupFields(x)) == Ok(GroupMatches(f)(x)) {
      GroupFiltersAgree(f, x);
    }
    ListingIs(t, GroupEntries(f), filters, GroupFields, GroupMatches(f));
  }

  /** The four equality filters of a member filter set pass a membership exactly when MemberMatches does. */
  lemma MemberFiltersAgree(f: GroupMemberFilterSet, m: GroupMember)
    ensures AllPass(EqFilter("group_id", UuidValue(f.groupIdEq)) + EqFilter("user_id", UuidValue(f.userIdEq))
                    + EqFilter("is_admin", BoolValue(f.isAdminEq)) + EqFilter("is_owner", BoolValue(f.isOwnerEq)),
                    MemberFields(m))
            == Ok(MemberMatches(f)(m))
  {
    var a := EqFilter("group_id", UuidValue(f.groupIdEq));
    var b := EqFilter("user_id", UuidValue(f.userIdEq));
    var c := EqFilter("is_admin", BoolValue(f.isAdminEq));
    var e := EqFilter("is_owner", BoolValue(f.isOwnerEq));
    var item := MemberFields(m);
    assert item["group_id"] == VUuid(m.groupId) && item["user_id"] == VUuid(m.userId);
    assert item["is_admin"] == VBool(m.isAdmin) && item["is_owner"] == VBool(m.isOwner);
    UuidFilterPasses("group_id", f.groupIdEq, item, m.groupId);
    UuidFilterPasses("user_id", f.userIdEq, item, m.userId);
    BoolFilterPasses("is_admin", f.isAdminEq, item, m.isAdmin);
    BoolFilterPasses("is_owner", f.isOwnerEq, item, m.isOwner);
    AllPassAppend(a, b, item);
    AllPassAppend(a + b, c, item);
    AllPassAppend(a + b + c, e, item);
  }

  lemma MemberListing(t: Table<GroupMember>, f: GroupMemberFilterSet)
    requires t.Valid()
    ensures ManyOf(t, Some(MemberEntries(f)), MemberFields) == Ok(Filtered(t.Values(), MemberMatches(f)))
  {
    MemberFilterSetFilters(f);
    var filters := EqFilter("group_id", UuidValue(f.groupIdEq)) + EqFilter("user_id", UuidValue(f.userIdEq))
                   + EqFilter("is_admin", BoolValue(f.isAdminEq)) + EqFilter("is_owner", BoolValue(f.isOwnerEq));
    forall m: GroupMember ensures AllPass(filters, MemberFields(m)) == Ok(MemberMatches(f)(m)) {
      MemberFiltersAgree(f, m);
    }
    ListingIs(t, MemberEntries(f), filters, MemberFields, MemberMatches(f));
  }

  /** The three equality filters of a request filter set pass a request exactly when RequestMatches does. */
  lemma RequestFiltersAgree(f: GroupRequestFilterSet, q: GroupRequest)
    ensures AllPass(EqFilter("group_id", UuidValue(f.groupIdEq)) + EqFilter("user_id", UuidValue(f.userIdEq))
                    + EqFilter("status", StatusOptValue(f.statusEq)),
                    RequestFields(q))
            == Ok(RequestMatches(f)(q))
  {
    var a := EqFilter("group_id", UuidValue(f.groupIdEq));
    var b := EqFilter("user_id", UuidValue(f.userIdEq));
    var c := EqFilter("status", StatusOptValue(f.statusEq));
    var item := RequestFields(q);
    assert item["group_id"] == VUuid(q.groupId) && item["user_id"] == VUuid(q.userId);
    assert item["status"] == VStr(StatusValue(q.status));
    UuidFilterPasses("group_id", f.groupIdEq, item, q.groupId);
    UuidFilterPasses("user_id", f.userIdEq, item, q.userId);
    EqFilterPasses("status", StatusOptValue(f.statusEq), item);
    if f.statusEq.Some? {
      StatusValueInjective(q.status, f.statusEq.value);
    }
    AllPassAppend(a, b, item);
    AllPassAppend(a + b, c, item);
  }

  lemma RequestListing(t: Table<GroupRequest>, f: GroupRequestFilterSet)
    requires t.Valid()
    ensures ManyOf(t, Some(RequestEntries(f)), RequestFields) == Ok(Filtered(t.Values(), RequestMatches(f)))
  {
    RequestFilterSetFilters(f);
    var filters := EqFilter("group_id", UuidValue(f.groupIdEq)) + EqFilter("user_id", UuidValue(f.userIdEq))
                   + EqFilter("status", StatusOptValue(f.statusEq));
    forall q: GroupRequest ensures AllPass(filters, RequestFields(q)) == Ok(RequestMatches(f)(q)) {
      RequestFiltersAgree(f, q);
    }
    ListingIs(t, RequestEntries(f), filters, RequestFields, RequestMatches(f));
  }

  /** get_groups lists the groups the given filters select, in insertion order; with no filters, all of them. */
  lemma GetGroupsListing(d: Db, input: Option<GroupInputFilters>)
    requires d.Valid()
    ensures GetGroups(d, input).db == d
    ensures GetGroups(d, input).result
         == Ok(Filtered(d.groups.Values(), GroupMatches(GroupFilterSetOf(if input.None? then GroupInputFilters() else input.value))))
    ensures input.None? ==> GetGroups(d, input).result == Ok(d.groups.Values())
  {
    var f := GroupFilterSetOf(if input.None? then GroupInputFilters() else input.value);
    GroupListing(d.groups, f);
    if input.None? {
      FilteredAll(d.groups.Values(), GroupMatches(f));
    }
  }

  /**
    get_group_requests_for_group: the group's owner and admins see all its
    pending requests; a non-member sees only their own; a plain member is
    refused.
  */
  lemma RequestsForGroupVisibility(d: Db, u: Uuid, g: Uuid)
    requires d.Valid()
    ensures GetGroupRequestsForGroup(d, u, g).db == d
    ensures IsOwnerOrAdmin(d, u, g) ==>
              GetGroupRequestsForGroup(d, u, g).result
              == Ok(Filtered(d.requests.Values(), RequestMatches(GroupRequestFilterSet(Some(g), None, Some(Pending)))))
    ensures InGroup(d.members, u, g) && !IsOwnerOrAdmin(d, u, g) ==>
              GetGroupRequestsForGroup(d, u, g).result == Err(NotAGroupOwnerOrAdmin)
    ensures !InGroup(d.members, u, g) ==>
              GetGroupRequestsForGroup(d, u, g).result == Ok(Filtered(d.requests.Values(), IsPendingRequest(u, g)))
    ensures !InGroup(d.members, u, g) ==> forall q :: q in GetGroupRequestsForGroup(d, u, g).result.value ==> q.userId == u
  {
    Membership(d, u, g);
    RequestListing(d.requests, GroupRequestFilterSet(Some(g), None, Some(Pending)));
    var narrowed := GroupRequestFilterSet(Some(g), Some(u), Some(Pending));
    RequestListing(d.requests, narrowed);
    FilteredCongruent(d.requests.Values(), RequestMatches(narrowed), IsPendingRequest(u, g));
    FilteredMembers(d.requests.Values(), IsPendingRequest(u, g));
  }

  /** get_group_requests_for_user lists the user's pending requests, for every group, in insertion order. */
  lemma RequestsForUserListing(d: Db, u: Uuid)
    requires d.Valid()
    ensures GetGroupRequestsForUser(d, u).db == d
    ensures GetGroupRequestsForUser(d, u).result
         == Ok(Filtered(d.requests.Values(), RequestMatches(GroupRequestFilterSet(None, Some(u), Some(Pending)))))
    ensures forall q :: q in GetGroupRequestsForUser(d, u).result.value ==> q.userId == u && q.status == Pending
  {
    var f := GroupRequestFilterSet(None, Some(u), Some(Pending));
    RequestListing(d.requests, f);
    FilteredMembers(d.requests.Values(), RequestMatches(f));
  }

  /**
    get_groups as written: with neither a name nor a privacy flag given it
    lists every group, as intended; with either given it raises TypeError.
  */
  lemma GetGroupsAsWrittenOutcome(d: Db, input: Option<GroupInputFilters>)
    requires d.Valid()
    ensures var i := if input.None? then GroupInputFilters() else input.value;
            GetGroupsAsWritten(d, input).result
            == if i.nameEq.None? && i.isPrivateEq.None? then Ok(d.groups.Values()) else Err(FilterFailed(NotSubscriptable))
    ensures var i := if input.None? then GroupInputFilters() else input.value;
            i.nameEq.None? && i.isPrivateEq.None? ==> GetGroupsAsWritten(d, input) == GetGroups(d, input)
  {
    var f := GroupFilterSetOf(if input.None? then GroupInputFilters() else input.value);
    GroupFilterSetFilters(f);
    ManyOfAsWrittenRaises(d.groups, Some(GroupEntries(f)), GroupFields);
  }

  /**
    get_group_requests_for_group as written: a plain member is refused as
    intended, and every caller who passes that check gets TypeError.
  */
  lemma RequestsForGroupAsWrittenRaises(d: Db, u: Uuid, g: Uuid)
    requires d.Valid()
    ensures InGroup(d.members, u, g) && !IsOwnerOrAdmin(d, u, g) ==>
              GetGroupRequestsForGroupAsWritten(d, u, g).result == Err(NotAGroupOwnerOrAdmin)
    ensures !InGroup(d.members, u, g) || IsOwnerOrAdmin(d, u, g) ==>
              GetGroupRequestsForGroupAsWritten(d, u, g).result == Err(FilterFailed(NotSubscriptable))
  {
    Membership(d, u, g);
    RequestFilterSetFilters(GroupRequestFilterSet(Some(g), None, Some(Pending)));
    RequestFilterSetFilters(GroupRequestFilterSet(Some(g), Some(u), Some(Pending)));
  }

  /** get_group_requests_for_user as written always raises TypeError. */
  lemma RequestsForUserAsWrittenRaises(d: Db, u: Uuid)
    requires d.Valid()
    ensures GetGroupRequestsForUserAsWritten(d, u).result == Err(FilterFailed(NotSubscriptable))
  {
    RequestFilterSetFilters(GroupRequestFilterSet(None, Some(u), Some(Pending)));
  }

  /**
    User 8's own requests on the witness database: the intended listing
    returns their pending request, the written one raises TypeError.
  */
  lemma ListingTypeErrorWitness()
    ensures GetGroupRequestsForUser(OwnedGroup(), 8).result == Ok([GroupRequest(3, 8, 1, None, Pending)])
    ensures GetGroupRequestsForUserAsWritten(OwnedGroup(), 8).result == Err(FilterFailed(NotSubscriptable))
  {
    var d := OwnedGroup();
    var q := GroupRequest(3, 8, 1, None, Pending);
    var f := GroupRequestFilterSet(None, Some(8), Some(Pending));
    RequestsForUserAsWrittenRaises(d, 8);
    calc {
      GetGroupRequestsForUser(d, 8).result;
      { RequestsForUserListing(d, 8); }
      Ok(Filtered(d.requests.Values(), RequestMatches(f)));
      { assert d.requests.Values() == [q]; }
      Ok(Filtered([q], RequestMatches(f)));
      { FilteredSingle(q, RequestMatches(f)); }
      Ok([q]);
    }
  }

  lemma FilteredSingle<T>(x: T, p: T -> bool)
    requires p(x)
    ensures Filtered([x], p) == [x]
  {
    assert [x][1..] == [];
  }

  // ---- members --------------------------------------------------------------

  /**
    get_group_members: a private group's members are listed to its members
    only; the listing keeps the group's memberships that the caller's
    filters select, in insertion order, and never another group's.
  */
  lemma GetGroupMembersListing(d: Db, u: Uuid, g: Uuid, filters: Option<GroupMemberInputFilters>)
    requires d.Valid()
    ensures GetGroupMembers(d, u, g, filters).db == d
    ensures g !in d.groups.rows ==> GetGroupMembers(d, u, g, filters).result == Err(DoesNotExist)
    ensures g in d.groups.rows && d.groups.rows[g].isPrivate && !InGroup(d.members, u, g) ==>
              GetGroupMembers(d, u, g, filters).result == Err(NotAGroupMember)
    ensures g in d.groups.rows && (!d.groups.rows[g].isPrivate || InGroup(d.members, u, g)) ==>
              GetGroupMembers(d, u, g, filters).result
              == Ok(Filtered(d.members.Values(),
                             MemberMatches(MemberFilterSetFor(g, if filters.None? then GroupMemberInputFilters() else filters.value))))
    ensures GetGroupMembers(d, u, g, filters).result.Ok? ==>
              forall m :: m in GetGroupMembers(d, u, g, filters).result.value ==> m.groupId == g
  {
    Membership(d, u, g);
    var f := MemberFilterSetFor(g, if filters.None? then GroupMemberInputFilters() else filters.value);
    MemberListing(d.members, f);
    FilteredMembers(d.members.Values(), MemberMatches(f));
  }

  /**
    get_group_members as written: the lookup and the privacy check raise as
    intended, and past them the always-dumped group scope raises TypeError.
  */
  lemma GetGroupMembersAsWrittenRaises(d: Db, u: Uuid, g: Uuid, filters: Option<GroupMemberInputFilters>)
    requires d.Valid()
    ensures g !in d.groups.rows ==> GetGroupMembersAsWritten(d, u, g, filters).result == Err(DoesNotExist)
    ensures g in d.groups.rows && d.groups.rows[g].isPrivate && !InGroup(d.members, u, g) ==>
              GetGroupMembersAsWritten(d, u, g, filters).result == Err(NotAGroupMember)
    ensures g in d.groups.rows && (!d.groups.rows[g].isPrivate || InGroup(d.members, u, g)) ==>
              GetGroupMembersAsWritten(d, u, g, filters).result == Err(FilterFailed(NotSubscriptable))
  {
    Membership(d, u, g);
    MemberScopeIsKept(g, if filters.None? then GroupMemberInputFilters() else filters.value);
  }

  /**
    get_group_member: a private group's members are shown to its members
    only, and only a membership of the requested group is returned.
  */
  lemma GetGroupMemberAccess(d: Db, u: Uuid, g: Uuid, mid: Uuid)
    requires d.Valid()
    ensures GetGroupMember(d, u, g, mid).db == d
    ensures g !in d.groups.rows ==> GetGroupMember(d, u, g, mid).result == Err(DoesNotExist)
    ensures g in d.groups.rows && d.groups.rows[g].isPrivate && !InGroup(d.members, u, g) ==>
              GetGroupMember(d, u, g, mid).result == Err(NotAGroupMember)
    ensures g in d.groups.rows && (!d.groups.rows[g].isPrivate || InGroup(d.members, u, g)) ==>
              GetGroupMember(d, u, g, mid).result
              == if mid in d.members.rows && d.members.rows[mid].groupId == g then Ok(d.members.rows[mid]) else Err(DoesNotExist)
  {
    Membership(d, u, g);
  }

  /**
    update_group_member: only the owner may change the admin flag; the stored
    membership gets the requested flag, and nothing is written when it
    already has it.  The target is not checked to belong to the group.
  */
  lemma UpdateGroupMemberOutcome(d: Db, u: Uuid, g: Uuid, mid: Uuid, schema: UpdateGroupMemberSchema)
    requires d.Valid()
    ensures g !in d.groups.rows ==> UpdateGroupMember(d, u, g, mid, schema) == Fail(d, DoesNotExist)
    ensures g in d.groups.rows && !InGroup(d.members, u, g) ==> UpdateGroupMember(d, u, g, mid, schema) == Fail(d, NotAGroupMember)
    ensures g in d.groups.rows && InGroup(d.members, u, g) && !IsOwner(d, u, g) ==>
              UpdateGroupMember(d, u, g, mid, schema) == Fail(d, NotAGroupOwner)
    ensures g in d.groups.rows && IsOwner(d, u, g) && mid !in d.members.rows ==>
              UpdateGroupMember(d, u, g, mid, schema) == Fail(d, DoesNotExist)
    ensures g in d.groups.rows && IsOwner(d, u, g) && mid in d.members.rows ==>
              UpdateGroupMember(d, u, g, mid, schema)
              == Outcome(d.(members := d.members.Set(mid, d.members.rows[mid].(isAdmin := schema.isAdmin))), Ok(()))
    ensures g in d.groups.rows && IsOwner(d, u, g) && mid in d.members.rows && d.members.rows[mid].isAdmin == schema.isAdmin ==>
              UpdateGroupMember(d, u, g, mid, schema) == Outcome(d, Ok(()))
  {
    Membership(d, u, g);
    if mid in d.members.rows {
      var m := d.members.rows[mid];
      assert MemberIdOf(m) == mid;
      if m.isAdmin == schema.isAdmin {
        assert m.(isAdmin := schema.isAdmin) == m;
        assert d.members.rows[mid := m] == d.members.rows;
        assert d.members.Set(mid, m) == d.members;
      }
    }
  }

  /**
    change_group_owner: the target is looked up before the caller's
    ownership is checked; the caller's membership loses ownership and the
    target's gains it; no other row changes.
  */
  lemma ChangeGroupOwnerOutcome(d: Db, u: Uuid, g: Uuid, mid: Uuid)
    requires d.Valid()
    ensures g !in d.groups.rows ==> ChangeGroupOwner(d, u, g, mid) == Fail(d, DoesNotExist)
    ensures g in d.groups.rows && !InGroup(d.members, u, g) ==> ChangeGroupOwner(d, u, g, mid) == Fail(d, NotAGroupMember)
    ensures g in d.groups.rows && InGroup(d.members, u, g) && mid !in d.members.rows ==>
              ChangeGroupOwner(d, u, g, mid) == Fail(d, DoesNotExist)
    ensures g in d.groups.rows && InGroup(d.members, u, g) && mid in d.members.rows && !IsOwner(d, u, g) ==>
              ChangeGroupOwner(d, u, g, mid) == Fail(d, NotAGroupOwner)
    ensures g in d.groups.rows && IsOwner(d, u, g) && mid in d.members.rows && d.members.rows[mid].userId == u ==>
              ChangeGroupOwner(d, u, g, mid) == Fail(d, AlreadyAGroupOwner)
    ensures g in d.groups.rows && IsOwner(d, u, g) && mid in d.members.rows && d.members.rows[mid].userId != u ==>
              var m := MemberOf(d.members, u, g).value;
              var o := ChangeGroupOwner(d, u, g, mid);
              && o.result == Ok(())
              && m.id != mid
              && o.db.members.rows == d.members.rows[m.id := m.(isOwner := false)][mid := d.members.rows[mid].(isOwner := true)]
              && o.db.members.keys == d.members.keys
              && o.db.groups == d.groups && o.db.requests == d.requests
  {
    Membership(d, u, g);
    if mid in d.members.rows {
      assert MemberIdOf(d.members.rows[mid]) == mid;
    }
  }

  /**
    When the caller was the group's one owner, ownership moves to a target
    in the group; a target in another group leaves the group with no owner.
  */
  lemma OwnershipMoves(d: Db, u: Uuid, g: Uuid, mid: Uuid)
    requires d.Valid() && g in d.groups.rows && IsOwner(d, u, g)
    requires mid in d.members.rows && d.members.rows[mid].userId != u
    requires Owners(d.members, g) == {MemberOf(d.members, u, g).value.id}
    ensures d.members.rows[mid].groupId == g ==> Owners(ChangeGroupOwner(d, u, g, mid).db.members, g) == {mid}
    ensures d.members.rows[mid].groupId != g ==> Owners(ChangeGroupOwner(d, u, g, mid).db.members, g) == {}
  {
    ChangeGroupOwnerOutcome(d, u, g, mid);
    Membership(d, u, g);
    var m := MemberOf(d.members, u, g).value;
    var t := ChangeGroupOwner(d, u, g, mid).db.members;
    forall k | k in t.rows
      ensures k in Owners(t, g) <==> k == mid && d.members.rows[mid].groupId == g
    {
      if k != mid && k != m.id {
        assert k !in Owners(d.members, g);
      }
    }
    if d.members.rows[mid].groupId == g {
      assert Owners(t, g) == {mid} by {
        assert mid in Owners(t, g);
      }
    } else {
      assert Owners(t, g) == {};
    }
  }

  /**
    delete_group_member: owners and admins may remove a member, only the
    owner may remove an admin, and no one may remove an owner.  The target
    is not checked to belong to the group.
  */
  lemma DeleteGroupMemberOutcome(d: Db, u: Uuid, g: Uuid, mid: Uuid)
    requires d.Valid()
    ensures g !in d.groups.rows ==> DeleteGroupMember(d, u, g, mid) == Fail(d, DoesNotExist)
    ensures g in d.groups.rows && !InGroup(d.members, u, g) ==> DeleteGroupMember(d, u, g, mid) == Fail(d, NotAGroupMember)
    ensures g in d.groups.rows && InGroup(d.members, u, g) && !IsOwnerOrAdmin(d, u, g) ==>
              DeleteGroupMember(d, u, g, mid) == Fail(d, NotAGroupOwnerOrAdmin)
    ensures g in d.groups.rows && IsOwnerOrAdmin(d, u, g) && mid !in d.members.rows ==>
              DeleteGroupMember(d, u, g, mid) == Fail(d, DoesNotExist)
    ensures g in d.groups.rows && IsOwnerOrAdmin(d, u, g) && mid in d.members.rows && d.members.rows[mid].isOwner ==>
              DeleteGroupMember(d, u, g, mid) == Fail(d, CannotDeleteAGroupOwner)
    ensures g in d.groups.rows && IsOwnerOrAdmin(d, u, g) && mid in d.members.rows && !d.members.rows[mid].isOwner
            && d.members.rows[mid].isAdmin && !IsOwner(d, u, g) ==>
              DeleteGroupMember(d, u, g, mid) == Fail(d, NotAGroupOwner)
    ensures g in d.groups.rows && IsOwnerOrAdmin(d, u, g) && mid in d.members.rows && !d.members.rows[mid].isOwner
            && (!d.members.rows[mid].isAdmin || IsOwner(d, u, g)) ==>
              DeleteGroupMember(d, u, g, mid) == Outcome(d.(members := d.members.Del(mid)), Ok(()))
    ensures forall h :: Owners(DeleteGroupMember(d, u, g, mid).db.members, h) == Owners(d.members, h)
  {
    Membership(d, u, g);
    if mid in d.members.rows {
      assert MemberIdOf(d.members.rows[mid]) == mid;
    }
  }

  /**
    leave_group: a member who is not the owner leaves by removing their
    membership; the owner cannot leave; a non-member gets the lookup's
    DoesNotExist.  The group itself is not looked up.
  */
  lemma LeaveGroupOutcome(d: Db, u: Uuid, g: Uuid)
    requires d.Valid()
    ensures !InGroup(d.members, u, g) ==> LeaveGroup(d, u, g) == Fail(d, DoesNotExist)
    ensures IsOwner(d, u, g) ==> LeaveGroup(d, u, g) == Fail(d, CannotLeaveGroupAsOwner)
    ensures MemberOf(d.members, u, g).Ok? && !IsOwner(d, u, g) ==>
              var m := MemberOf(d.members, u, g).value;
              LeaveGroup(d, u, g) == Outcome(d.(members := d.members.Del(m.id)), Ok(()))
    ensures forall h :: Owners(LeaveGroup(d, u, g).db.members, h) == Owners(d.members, h)
  {
    Membership(d, u, g);
  }
}
