/**
  The in-memory repositories of tests/fakes/repositories/group.py.  The
  three repositories share one FakeDatabase (tests/fakes/database.py) whose
  tables are insertion-ordered dicts from record id to record.

  The first half defines, on values, what every repository operation
  computes; the classes below are proved to compute exactly that, and the
  group service is specified in terms of the same functions.
*/
module FakeRepositories {
  import opened Wrappers
  import opened FilterBase
  import opened GroupModels
  import opened GroupErrors
  import opened Tables

  function GroupIdOf(g: Group): Uuid { g.id }
  function MemberIdOf(m: GroupMember): Uuid { m.id }
  function RequestIdOf(q: GroupRequest): Uuid { q.id }

  /** Every record is stored under its own id. */
  ghost predicate Keyed<T>(t: Table<T>, id: T -> Uuid)
  {
    forall k :: k in t.rows ==> id(t.rows[k]) == k
  }

  /** The three group tables of a FakeDatabase at one moment. */
  datatype Db = Db(groups: Table<Group>, members: Table<GroupMember>, requests: Table<GroupRequest>)
  {
    ghost predicate Valid()
    {
      && groups.Valid() && members.Valid() && requests.Valid()
      && Keyed(groups, GroupIdOf) && Keyed(members, MemberIdOf) && Keyed(requests, RequestIdOf)
    }
  }

  /** A table after a write, and whether the write raised. */
  datatype Write<T> = Write(table: Table<T>, result: Result<(), Error>)

  // ---- the operations, on values -----------------------------------------

  /** `get(pk)`. */
  function Lookup<T>(t: Table<T>, pk: Uuid): Result<T, Error>
  {
    if pk in t.rows then Ok(t.rows[pk]) else Err(DoesNotExist)
  }

  /** `persist(x)` with `k == x.id`. */
  function Persisted<T>(t: Table<T>, k: Uuid, x: T): Write<T>
    requires t.Valid()
  {
    if k in t.rows then Write(t, Err(AlreadyExists)) else Write(t.Set(k, x), Ok(()))
  }

  /** `persist_many(xs)`: one persist after another, stopping at the first that raises. */
  function PersistedAll<T>(t: Table<T>, xs: seq<T>, id: T -> Uuid): (w: Write<T>)
    requires t.Valid()
    ensures w.table.Valid()
    decreases |xs|
  {
    if xs == [] then Write(t, Ok(()))
    else if id(xs[0]) in t.rows then Write(t, Err(AlreadyExists))
    else PersistedAll(t.Set(id(xs[0]), xs[0]), xs[1..], id)
  }

  /** `delete(x)` with `k == x.id`: `del d[k]`, a KeyError when k is absent. */
  function Deleted<T>(t: Table<T>, k: Uuid): Write<T>
    requires t.Valid()
  {
    if k in t.rows then Write(t.Del(k), Ok(())) else Write(t, Err(KeyError))
  }

  /** `all(filter_(item) for filter_ in filters)` holds. */
  function PassesAll<T>(filters: seq<Filter>, fields: T -> map<string, Value>): T -> bool
  {
    (x: T) => AllPass(filters, fields(x)) == Ok(true)
  }

  /** `[x for x in xs if all(filter_(x) for filter_ in filters)]`; the first raise propagates. */
  function Matching<T>(xs: seq<T>, filters: seq<Filter>, fields: T -> map<string, Value>): Result<seq<T>, FilterError>
  {
    if xs == [] then Ok([])
    else match AllPass(filters, fields(xs[0]))
      case Err(e) => Err(e)
      case Ok(keep) =>
        match Matching(xs[1..], filters, fields)
        case Err(e) => Err(e)
        case Ok(rest) => Ok((if keep then [xs[0]] else []) + rest)
  }

  /**
    `get_many(filter_set)`.  A filter set is given by its declared fields; a
    pydantic model is always truthy, so any filter set, even an empty one,
    goes through `get_filters`.
  */
  function ManyOf<T>(t: Table<T>, filterSet: Option<seq<FieldEntry>>, fields: T -> map<string, Value>)
    : Result<seq<T>, FilterError>
    requires t.Valid()
  {
    if filterSet.None? then Ok(t.Values())
    else match FiltersOf(filterSet.value)
      case Err(e) => Err(e)
      case Ok(filters) => Matching(t.Values(), filters, fields)
  }

  /**
    `get_many(filter_set)` as written, where `get_filters` raises as soon as
    the filter set dumps a field.
  */
  function ManyOfAsWritten<T>(t: Table<T>, filterSet: Option<seq<FieldEntry>>, fields: T -> map<string, Value>)
    : Result<seq<T>, FilterError>
    requires t.Valid()
  {
    if filterSet.None? then Ok(t.Values())
    else match FiltersOfAsWritten(filterSet.value)
      case Err(e) => Err(e)
      case Ok(filters) => Matching(t.Values(), filters, fields)
  }

  function IsMembership(userId: Uuid, groupId: Uuid): GroupMember -> bool
  {
    (m: GroupMember) => m.userId == userId && m.groupId == groupId
  }

  function IsPendingRequest(userId: Uuid, groupId: Uuid): GroupRequest -> bool
  {
    (q: GroupRequest) => q.userId == userId && q.groupId == groupId && q.status == Pending
  }

  function MemberInGroup(groupId: Uuid): GroupMember -> bool
  {
    (m: GroupMember) => m.groupId == groupId
  }

  function RequestInGroup(groupId: Uuid): GroupRequest -> bool
  {
    (q: GroupRequest) => q.groupId == groupId
  }

  function FoundOr<T>(o: Option<T>): Result<T, Error>
  {
    if o.Some? then Ok(o.value) else Err(DoesNotExist)
  }

  /** `get_by_user_and_group_id`: the first membership of the user in the group. */
  function MemberOf(t: Table<GroupMember>, userId: Uuid, groupId: Uuid): Result<GroupMember, Error>
    requires t.Valid()
  {
    FoundOr(First(t.Values(), IsMembership(userId, groupId)))
  }

  /** `get_pending_request_by_user_and_group_id`: the first pending request of the user for the group. */
  function PendingOf(t: Table<GroupRequest>, userId: Uuid, groupId: Uuid): Result<GroupRequest, Error>
    requires t.Valid()
  {
    FoundOr(First(t.Values(), IsPendingRequest(userId, groupId)))
  }

  /** `delete_by_group_id` on the member table: a sweep over a snapshot of its keys. */
  function MembersWithoutGroup(t: Table<GroupMember>, groupId: Uuid): Table<GroupMember>
    requires t.Valid()
  {
    DropWhere(t, t.keys, MemberInGroup(groupId))
  }

  /** `delete_by_group_id` on the request table. */
  function RequestsWithoutGroup(t: Table<GroupRequest>, groupId: Uuid): Table<GroupRequest>
    requires t.Valid()
  {
    DropWhere(t, t.keys, RequestInGroup(groupId))
  }

  /** `[groups[m.group_id] for m in memberships]`; a missing group is a KeyError. */
  function GroupsOf(memberships: seq<GroupMember>, groups: Table<Group>): Result<seq<Group>, Error>
  {
    if memberships == [] then Ok([])
    else if memberships[0].groupId !in groups.rows then Err(KeyError)
    else match GroupsOf(memberships[1..], groups)
      case Err(e) => Err(e)
      case Ok(rest) => Ok([groups.rows[memberships[0].groupId]] + rest)
  }

  function IsUsersMembership(userId: Uuid): GroupMember -> bool
  {
    (m: GroupMember) => m.userId == userId
  }

  /** `get_many_for_user`. */
  function GroupsForUser(d: Db, userId: Uuid): Result<seq<Group>, Error>
    requires d.Valid()
  {
    GroupsOf(Filtered(d.members.Values(), IsUsersMembership(userId)), d.groups)
  }

  // ---- what the operations promise ----------------------------------------

  /** `persist` inserts a fresh id after every existing record; on a present id it raises and changes nothing. */
  lemma PersistThenGet<T>(t: Table<T>, k: Uuid, x: T)
    requires t.Valid()
    ensures Persisted(t, k, x).result.Ok? <==> k !in t.rows
    ensures k in t.rows ==> Persisted(t, k, x) == Write(t, Err(AlreadyExists))
    ensures k !in t.rows ==> Lookup(Persisted(t, k, x).table, k) == Ok(x)
    ensures k !in t.rows ==> Persisted(t, k, x).table.Values() == t.Values() + [x]
    ensures forall j :: j != k ==> Lookup(Persisted(t, k, x).table, j) == Lookup(t, j)
  {
    if k !in t.rows {
      SetNewAppends(t, k, x);
    }
  }

  /** `update` overwrites the record in its place and nothing else. */
  lemma UpdateThenGet<T>(t: Table<T>, k: Uuid, x: T)
    requires t.Valid() && k in t.rows
    ensures Lookup(t.Set(k, x), k) == Ok(x)
    ensures forall j :: j != k ==> Lookup(t.Set(k, x), j) == Lookup(t, j)
    ensures t.Set(k, x).keys == t.keys
  {
  }

  /** `delete` removes exactly that id; an absent id raises KeyError and changes nothing. */
  lemma DeleteThenGet<T>(t: Table<T>, k: Uuid)
    requires t.Valid()
    ensures Deleted(t, k).result.Ok? <==> k in t.rows
    ensures k !in t.rows ==> Deleted(t, k) == Write(t, Err(KeyError))
    ensures Lookup(Deleted(t, k).table, k) == Err(DoesNotExist)
    ensures forall j :: j != k ==> Lookup(Deleted(t, k).table, j) == Lookup(t, j)
  {
  }

  /**
    `persist_many` is not atomic: it appends the records in order up to the
    first whose id is already present (in the table, or earlier in the list),
    and those stay when it raises.
  */
  lemma {:induction false} PersistedAllPrefix<T>(t: Table<T>, xs: seq<T>, id: T -> Uuid) returns (n: nat)
    requires t.Valid()
    ensures n <= |xs|
    ensures PersistedAll(t, xs, id).table.Values() == t.Values() + xs[..n]
    ensures PersistedAll(t, xs, id).result == if n == |xs| then Ok(()) else Err(AlreadyExists)
    ensures n < |xs| ==> id(xs[n]) in PersistedAll(t, xs, id).table.rows
    decreases |xs|
  {
    n := 0;
    if xs != [] && id(xs[0]) !in t.rows {
      var t1 := t.Set(id(xs[0]), xs[0]);
      var w := PersistedAll(t1, xs[1..], id);
      assert PersistedAll(t, xs, id) == w;
      var vs := t1.Values();
      SetNewAppends(t, id(xs[0]), xs[0]);
      assert vs == t.Values() + [xs[0]];
      var m := PersistedAllPrefix(t1, xs[1..], id);
      n := m + 1;
      PrefixStep(t.Values(), xs, m);
    }
  }

  lemma PrefixStep<T>(vs: seq<T>, xs: seq<T>, m: nat)
    requires xs != [] && m < |xs|
    ensures (vs + [xs[0]]) + xs[1..][..m] == vs + xs[..m + 1]
    ensures m + 1 < |xs| ==> xs[m + 1] == xs[1..][m]
  {
    assert xs[..m + 1] == [xs[0]] + xs[1..][..m];
  }

  /** The smallest witness of non-atomicity: the first record stays although the call raises. */
  lemma PersistManyNotAtomic<T>(t: Table<T>, a: T, b: T, id: T -> Uuid)
    requires t.Valid() && id(a) !in t.rows && id(b) in t.rows
    ensures PersistedAll(t, [a, b], id).result == Err(AlreadyExists)
    ensures Lookup(PersistedAll(t, [a, b], id).table, id(a)) == Ok(a)
  {
    assert [a, b][1..] == [b];
    assert [b][1..] == [];
  }

  /** With no filter set, get_many returns every record in insertion order. */
  lemma ManyOfNoFilterSet<T>(t: Table<T>, fields: T -> map<string, Value>)
    requires t.Valid()
    ensures ManyOf(t, None, fields) == Ok(t.Values())
    ensures FiltersOf([]) == Ok([]) && ManyOf(t, Some([]), fields) == Ok(t.Values())
  {
    MatchingFiltered(t.Values(), [], fields);
    FilteredAll(t.Values(), PassesAll([], fields));
  }

  /**
    As written, get_many lists every record when no filter set is given or
    nothing is dumped, as intended; any dumped field raises the exception of
    `get_filters` instead.
  */
  lemma ManyOfAsWrittenRaises<T>(t: Table<T>, filterSet: Option<seq<FieldEntry>>, fields: T -> map<string, Value>)
    requires t.Valid()
    ensures filterSet.None? || DumpedEntries(filterSet.value) == [] ==>
              ManyOfAsWritten(t, filterSet, fields) == Ok(t.Values()) && ManyOf(t, filterSet, fields) == Ok(t.Values())
    ensures filterSet.Some? && DumpedEntries(filterSet.value) != [] ==>
              FiltersOfAsWritten(filterSet.value).Err?
              && ManyOfAsWritten(t, filterSet, fields) == Err(FiltersOfAsWritten(filterSet.value).error)
    ensures filterSet.Some? && FiltersOfAsWritten(filterSet.value).Ok? ==>
              ManyOfAsWritten(t, filterSet, fields) == Ok(t.Values()) && ManyOf(t, filterSet, fields) == Ok(t.Values())
  {
    if filterSet.Some? {
      FiltersOfAsWrittenRaises(filterSet.value);
    }
    MatchingFiltered(t.Values(), [], fields);
    FilteredAll(t.Values(), PassesAll([], fields));
  }

  /** When no filter raises, get_many keeps, in order, exactly the records that pass every filter. */
  lemma {:induction false} MatchingFiltered<T>(xs: seq<T>, filters: seq<Filter>, fields: T -> map<string, Value>)
    requires forall x :: x in xs ==> AllPass(filters, fields(x)).Ok?
    ensures Matching(xs, filters, fields) == Ok(Filtered(xs, PassesAll(filters, fields)))
  {
    if xs != [] {
      assert forall x :: x in xs[1..] ==> x in xs;
      MatchingFiltered(xs[1..], filters, fields);
    }
  }

  /** The first raise of a filter, on the earliest record where one raises, is what get_many raises. */
  lemma {:induction false} MatchingRaises<T>(xs: seq<T>, filters: seq<Filter>, fields: T -> map<string, Value>, i: nat)
    requires i < |xs| && AllPass(filters, fields(xs[i])).Err?
    requires forall j :: 0 <= j < i ==> AllPass(filters, fields(xs[j])).Ok?
    ensures Matching(xs, filters, fields) == Err(AllPass(filters, fields(xs[i])).error)
  {
    if i > 0 {
      forall j | 0 <= j < i - 1 ensures AllPass(filters, fields(xs[1..][j])).Ok? {
        assert xs[1..][j] == xs[j + 1];
      }
      MatchingRaises(xs[1..], filters, fields, i - 1);
    }
  }

  /** `get_by_user_and_group_id` finds the membership earliest in insertion order, or raises DoesNotExist when there is none. */
  lemma MemberOfFirst(t: Table<GroupMember>, userId: Uuid, groupId: Uuid) returns (i: nat)
    requires t.Valid()
    ensures MemberOf(t, userId, groupId).Err? <==>
              forall k :: k in t.rows ==> !(t.rows[k].userId == userId && t.rows[k].groupId == groupId)
    ensures MemberOf(t, userId, groupId).Err? ==> MemberOf(t, userId, groupId).error == DoesNotExist
    ensures MemberOf(t, userId, groupId).Ok? ==>
              && i < |t.keys| && t.rows[t.keys[i]] == MemberOf(t, userId, groupId).value
              && MemberOf(t, userId, groupId).value.userId == userId
              && MemberOf(t, userId, groupId).value.groupId == groupId
              && forall j :: 0 <= j < i ==> !(t.rows[t.keys[j]].userId == userId && t.rows[t.keys[j]].groupId == groupId)
  {
    var p := IsMembership(userId, groupId);
    ValuesAreRows(t);
    i := 0;
    if First(t.Values(), p).Some? {
      i := FirstIndex(t.Values(), p);
    } else {
      forall k | k in t.rows ensures !p(t.rows[k]) {
        assert t.rows[k] in t.Values();
      }
    }
  }

  /** `get_pending_request_by_user_and_group_id` finds the pending request earliest in insertion order, or raises DoesNotExist. */
  lemma PendingOfFirst(t: Table<GroupRequest>, userId: Uuid, groupId: Uuid) returns (i: nat)
    requires t.Valid()
    ensures PendingOf(t, userId, groupId).Err? <==>
              forall k :: k in t.rows ==> !IsPendingRequest(userId, groupId)(t.rows[k])
    ensures PendingOf(t, userId, groupId).Err? ==> PendingOf(t, userId, groupId).error == DoesNotExist
    ensures PendingOf(t, userId, groupId).Ok? ==>
              && i < |t.keys| && t.rows[t.keys[i]] == PendingOf(t, userId, groupId).value
              && IsPendingRequest(userId, groupId)(PendingOf(t, userId, groupId).value)
              && forall j :: 0 <= j < i ==> !IsPendingRequest(userId, groupId)(t.rows[t.keys[j]])
  {
    var p := IsPendingRequest(userId, groupId);
    ValuesAreRows(t);
    i := 0;
    if First(t.Values(), p).Some? {
      i := FirstIndex(t.Values(), p);
    } else {
      forall k | k in t.rows ensures !p(t.rows[k]) {
        assert t.rows[k] in t.Values();
      }
    }
  }

  /** `get_many_for_user` lists the group of each membership of the user, in membership order; a dangling membership raises KeyError. */
  lemma {:induction false} GroupsOfSpec(memberships: seq<GroupMember>, groups: Table<Group>)
    ensures GroupsOf(memberships, groups).Ok? <==> forall m :: m in memberships ==> m.groupId in groups.rows
    ensures GroupsOf(memberships, groups).Err? ==> GroupsOf(memberships, groups).error == KeyError
    ensures GroupsOf(memberships, groups).Ok? ==>
              && |GroupsOf(memberships, groups).value| == |memberships|
              && forall i :: 0 <= i < |memberships| ==>
                   GroupsOf(memberships, groups).value[i] == groups.rows[memberships[i].groupId]
  {
    if memberships != [] {
      GroupsOfSpec(memberships[1..], groups);
      assert forall m :: m in memberships <==> m == memberships[0] || m in memberships[1..];
      if GroupsOf(memberships, groups).Ok? {
        var rest := GroupsOf(memberships[1..], groups).value;
        assert forall i :: 1 <= i < |memberships| ==> memberships[i] == memberships[1..][i - 1];
      }
    }
  }

  /** `delete_by_group_id` removes exactly the group's rows and leaves every other row as it was. */
  lemma DeleteByGroupIdRows(d: Db, groupId: Uuid)
    requires d.Valid()
    ensures forall k :: k in MembersWithoutGroup(d.members, groupId).rows <==>
                          k in d.members.rows && d.members.rows[k].groupId != groupId
    ensures forall k :: k in MembersWithoutGroup(d.members, groupId).rows ==>
                          MembersWithoutGroup(d.members, groupId).rows[k] == d.members.rows[k]
    ensures forall k :: k in RequestsWithoutGroup(d.requests, groupId).rows <==>
                          k in d.requests.rows && d.requests.rows[k].groupId != groupId
    ensures forall k :: k in RequestsWithoutGroup(d.requests, groupId).rows ==>
                          RequestsWithoutGroup(d.requests, groupId).rows[k] == d.requests.rows[k]
  {
    DropWhereRows(d.members, d.members.keys, MemberInGroup(groupId));
    DropWhereRows(d.requests, d.requests.keys, RequestInGroup(groupId));
  }

  /** One step of `delete_by_group_id`'s sweep keeps every record under its own id. */
  lemma SweepStepKeyed<T>(t: Table<T>, ids: seq<Uuid>, i: nat, drop: T -> bool, id: T -> Uuid)
    requires t.Valid() && Keyed(t, id) && Distinct(ids) && i < |ids|
    requires forall j :: i <= j < |ids| ==> ids[j] in t.rows
    ensures var t' := if drop(t.rows[ids[i]]) then t.Del(ids[i]) else t;
            && t'.Valid() && Keyed(t', id)
            && DropWhere(t', ids[i + 1..], drop) == DropWhere(t, ids[i..], drop)
            && (forall j :: i + 1 <= j < |ids| ==> ids[j] in t'.rows)
  {
    SweepStep(t, ids, i, drop);
  }

  /** The loop of `delete_by_group_id`: visit the keys in order and delete each row `drop` accepts. */
  method Sweep<T>(t: Table<T>, drop: T -> bool, ghost id: T -> Uuid) returns (r: Table<T>)
    requires t.Valid() && Keyed(t, id)
    ensures r == DropWhere(t, t.keys, drop)
    ensures r.Valid() && Keyed(r, id)
  {
    var ids := t.keys;
    r := t;
    var i := 0;
    assert ids[0..] == ids;
    while i < |ids|
      invariant 0 <= i <= |ids|
      invariant r.Valid() && Keyed(r, id)
      invariant DropWhere(r, ids[i..], drop) == DropWhere(t, t.keys, drop)
      invariant forall j :: i <= j < |ids| ==> ids[j] in r.rows
    {
      var next := if drop(r.rows[ids[i]]) then r.Del(ids[i]) else r;
      SweepStepKeyed(r, ids, i, drop, id);
      r, i := next, i + 1;
    }
  }

  // ---- the repositories ----------------------------------------------------

  class FakeDatabase {
    var groups: Table<Group>
    var groupMembers: Table<GroupMember>
    var groupRequests: Table<GroupRequest>

    function State(): Db
      reads this
    {
      Db(groups, groupMembers, groupRequests)
    }

    ghost predicate Valid()
      reads this
    {
      State().Valid()
    }

    constructor()
      ensures Valid()
      ensures groups == Empty() && groupMembers == Empty() && groupRequests == Empty()
    {
      groups := Empty();
      groupMembers := Empty();
      groupRequests := Empty();
    }
  }

  class FakeGroupRepository {
    const db: FakeDatabase

    constructor(db: FakeDatabase)
      ensures this.db == db
    {
      this.db := db;
    }

    method Get(pk: Uuid) returns (r: Result<Group, Error>)
      ensures r == Lookup(db.groups, pk)
    {
      if pk in db.groups.rows {
        r := Ok(db.groups.rows[pk]);
      } else {
        r := Err(DoesNotExist);
      }
    }

    method GetMany(filterSet: Option<seq<FieldEntry>>) returns (r: Result<seq<Group>, FilterError>)
      requires db.Valid()
      ensures r == ManyOf(db.groups, filterSet, GroupFields)
    {
      var groups := db.groups.Values();
      if filterSet.Some? {
        var filters := GetFilters(filterSet.value);
        if filters.Err? {
          return Err(filters.error);
        }
        r := Matching(groups, filters.value, GroupFields);
      } else {
        r := Ok(groups);
      }
    }

    method GetManyForUser(userId: Uuid) returns (r: Result<seq<Group>, Error>)
      requires db.Valid()
      ensures r == GroupsForUser(db.State(), userId)
    {
      var memberships := Filtered(db.groupMembers.Values(), IsUsersMembership(userId));
      r := GroupsOf(memberships, db.groups);
    }

    method Persist(group: Group) returns (r: Result<(), Error>)
      requires db.Valid()
      modifies db
      ensures db.Valid()
      ensures Write(db.groups, r) == Persisted(old(db.groups), group.id, group)
      ensures db.groupMembers == old(db.groupMembers) && db.groupRequests == old(db.groupRequests)
    {
      if group.id in db.groups.rows {
        return Err(AlreadyExists);
      }
      db.groups := db.groups.Set(group.id, group);
      r := Ok(());
    }

    method PersistMany(groups: seq<Group>) returns (r: Result<(), Error>)
      requires db.Valid()
      modifies db
      ensures db.Valid()
      ensures Write(db.groups, r) == PersistedAll(old(db.groups), groups, GroupIdOf)
      ensures db.groupMembers == old(db.groupMembers) && db.groupRequests == old(db.groupRequests)
    {
      var i := 0;
      while i < |groups|
        invariant 0 <= i <= |groups|
        invariant db.Valid()
        invariant PersistedAll(db.groups, groups[i..], GroupIdOf) == PersistedAll(old(db.groups), groups, GroupIdOf)
        invariant db.groupMembers == old(db.groupMembers) && db.groupRequests == old(db.groupRequests)
      {
        assert groups[i..][0] == groups[i] && groups[i..][1..] == groups[i + 1..];
        if groups[i].id in db.groups.rows {
          return Err(AlreadyExists);
        }
        db.groups := db.groups.Set(groups[i].id, groups[i]);
        i := i + 1;
      }
      r := Ok(());
    }

    /** `fields_to_update` is accepted and ignored: the whole record is written. */
    method Update(group: Group, fieldsToUpdate: seq<string>)
      requires db.Valid()
      modifies db
      ensures db.Valid()
      ensures db.groups == old(db.groups).Set(group.id, group)
      ensures db.groupMembers == old(db.groupMembers) && db.groupRequests == old(db.groupRequests)
    {
      db.groups := db.groups.Set(group.id, group);
    }

    method Delete(group: Group) returns (r: Result<(), Error>)
      requires db.Valid()
      modifies db
      ensures db.Valid()
      ensures Write(db.groups, r) == Deleted(old(db.groups), group.id)
      ensures db.groupMembers == old(db.groupMembers) && db.groupRequests == old(db.groupRequests)
    {
      if group.id !in db.groups.rows {
        return Err(KeyError);
      }
      db.groups := db.groups.Del(group.id);
      r := Ok(());
    }
  }

  class FakeGroupRequestRepository {
    const db: FakeDatabase

    constructor(db: FakeDatabase)
      ensures this.db == db
    {
      this.db := db;
    }

    method Get(pk: Uuid) returns (r: Result<GroupRequest, Error>)
      ensures r == Lookup(db.groupRequests, pk)
    {
      if pk in db.groupRequests.rows {
        r := Ok(db.groupRequests.rows[pk]);
      } else {
        r := Err(DoesNotExist);
      }
    }

    method GetMany(filterSet: Option<seq<FieldEntry>>) returns (r: Result<seq<GroupRequest>, FilterError>)
      requires db.Valid()
      ensures r == ManyOf(db.groupRequests, filterSet, RequestFields)
    {
      var requests := db.groupRequests.Values();
      if filterSet.Some? {
        var filters := GetFilters(filterSet.value);
        if filters.Err? {
          return Err(filters.error);
        }
        r := Matching(requests, filters.value, RequestFields);
      } else {
        r := Ok(requests);
      }
    }

    method Persist(request: GroupRequest) returns (r: Result<(), Error>)
      requires db.Valid()
      modifies db
      ensures db.Valid()
      ensures Write(db.groupRequests, r) == Persisted(old(db.groupRequests), request.id, request)
      ensures db.groups == old(db.groups) && db.groupMembers == old(db.groupMembers)
    {
      if request.id in db.groupRequests.rows {
        return Err(AlreadyExists);
      }
      db.groupRequests := db.groupRequests.Set(request.id, request);
      r := Ok(());
    }

    method PersistMany(requests: seq<GroupRequest>) returns (r: Result<(), Error>)
      requires db.Valid()
      modifies db
      ensures db.Valid()
      ensures Write(db.groupRequests, r) == PersistedAll(old(db.groupRequests), requests, RequestIdOf)
      ensures db.groups == old(db.groups) && db.groupMembers == old(db.groupMembers)
    {
      var i := 0;
      while i < |requests|
        invariant 0 <= i <= |requests|
        invariant db.Valid()
        invariant PersistedAll(db.groupRequests, requests[i..], RequestIdOf)
               == PersistedAll(old(db.groupRequests), requests, RequestIdOf)
        invariant db.groups == old(db.groups) && db.groupMembers == old(db.groupMembers)
      {
        assert requests[i..][0] == requests[i] && requests[i..][1..] == requests[i + 1..];
        if requests[i].id in db.groupRequests.rows {
          return Err(AlreadyExists);
        }
        db.groupRequests := db.groupRequests.Set(requests[i].id, requests[i]);
        i := i + 1;
      }
      r := Ok(());
    }

    method Update(request: GroupRequest, fieldsToUpdate: seq<string>)
      requires db.Valid()
      modifies db
      ensures db.Valid()
      ensures db.groupRequests == old(db.groupRequests).Set(request.id, request)
      ensures db.groups == old(db.groups) && db.groupMembers == old(db.groupMembers)
    {
      db.groupRequests := db.groupRequests.Set(request.id, request);
    }

    method Delete(request: GroupRequest) returns (r: Result<(), Error>)
      requires db.Valid()
      modifies db
      ensures db.Valid()
      ensures Write(db.groupRequests, r) == Deleted(old(db.groupRequests), request.id)
      ensures db.groups == old(db.groups) && db.groupMembers == old(db.groupMembers)
    {
      if request.id !in db.groupRequests.rows {
        return Err(KeyError);
      }
      db.groupRequests := db.groupRequests.Del(request.id);
      r := Ok(());
    }

    method DeleteByGroupId(groupId: Uuid)
      requires db.Valid()
      modifies db
      ensures db.Valid()
      ensures db.groupRequests == RequestsWithoutGroup(old(db.groupRequests), groupId)
      ensures db.groups == old(db.groups) && db.groupMembers == old(db.groupMembers)
    {
      db.groupRequests := Sweep(db.groupRequests, RequestInGroup(groupId), RequestIdOf);
    }

    method GetPendingRequestByUserAndGroupId(userId: Uuid, groupId: Uuid) returns (r: Result<GroupRequest, Error>)
      requires db.Valid()
      ensures r == PendingOf(db.groupRequests, userId, groupId)
    {
      var requests := db.groupRequests.Values();
      var i := 0;
      while i < |requests|
        invariant 0 <= i <= |requests|
        invariant First(requests[i..], IsPendingRequest(userId, groupId)) == First(requests, IsPendingRequest(userId, groupId))
      {
        assert requests[i..][0] == requests[i] && requests[i..][1..] == requests[i + 1..];
        var q := requests[i];
        if q.userId == userId && q.groupId == groupId && q.status == Pending {
          return Ok(q);
        }
        i := i + 1;
      }
      r := Err(DoesNotExist);
    }
  }

  class FakeGroupMemberRepository {
    const db: FakeDatabase

    constructor(db: FakeDatabase)
      ensures this.db == db
    {
      this.db := db;
    }

    method Get(pk: Uuid) returns (r: Result<GroupMember, Error>)
      ensures r == Lookup(db.groupMembers, pk)
    {
      if pk in db.groupMembers.rows {
        r := Ok(db.groupMembers.rows[pk]);
      } else {
        r := Err(DoesNotExist);
      }
    }

    method GetMany(filterSet: Option<seq<FieldEntry>>) returns (r: Result<seq<GroupMember>, FilterError>)
      requires db.Valid()
      ensures r == ManyOf(db.groupMembers, filterSet, MemberFields)
    {
      var members := db.groupMembers.Values();
      if filterSet.Some? {
        var filters := GetFilters(filterSet.value);
        if filters.Err? {
          return Err(filters.error);
        }
        r := Matching(members, filters.value, MemberFields);
      } else {
        r := Ok(members);
      }
    }

    method Persist(member: GroupMember) returns (r: Result<(), Error>)
      requires db.Valid()
      modifies db
      ensures db.Valid()
      ensures Write(db.groupMembers, r) == Persisted(old(db.groupMembers), member.id, member)
      ensures db.groups == old(db.groups) && db.groupRequests == old(db.groupRequests)
    {
      if member.id in db.groupMembers.rows {
        return Err(AlreadyExists);
      }
      db.groupMembers := db.groupMembers.Set(member.id, member);
      r := Ok(());
    }

    method PersistMany(members: seq<GroupMember>) returns (r: Result<(), Error>)
      requires db.Valid()
      modifies db
      ensures db.Valid()
      ensures Write(db.groupMembers, r) == PersistedAll(old(db.groupMembers), members, MemberIdOf)
      ensures db.groups == old(db.groups) && db.groupRequests == old(db.groupRequests)
    {
      var i := 0;
      while i < |members|
        invariant 0 <= i <= |members|
        invariant db.Valid()
        invariant PersistedAll(db.groupMembers, members[i..], MemberIdOf)
               == PersistedAll(old(db.groupMembers), members, MemberIdOf)
        invariant db.groups == old(db.groups) && db.groupRequests == old(db.groupRequests)
      {
        assert members[i..][0] == members[i] && members[i..][1..] == members[i + 1..];
        if members[i].id in db.groupMembers.rows {
          return Err(AlreadyExists);
        }
        db.groupMembers := db.groupMembers.Set(members[i].id, members[i]);
        i := i + 1;
      }
      r := Ok(());
    }

    method Update(member: GroupMember, fieldsToUpdate: seq<string>)
      requires db.Valid()
      modifies db
      ensures db.Valid()
      ensures db.groupMembers == old(db.groupMembers).Set(member.id, member)
      ensures db.groups == old(db.groups) && db.groupRequests == old(db.groupRequests)
    {
      db.groupMembers := db.groupMembers.Set(member.id, member);
    }

    method Delete(member: GroupMember) returns (r: Result<(), Error>)
      requires db.Valid()
      modifies db
      ensures db.Valid()
      ensures Write(db.groupMembers, r) == Deleted(old(db.groupMembers), member.id)
      ensures db.groups == old(db.groups) && db.groupRequests == old(db.groupRequests)
    {
      if member.id !in db.groupMembers.rows {
        return Err(KeyError);
      }
      db.groupMembers := db.groupMembers.Del(member.id);
      r := Ok(());
    }

    method DeleteByGroupId(groupId: Uuid)
      requires db.Valid()
      modifies db
      ensures db.Valid()
      ensures db.groupMembers == MembersWithoutGroup(old(db.groupMembers), groupId)
      ensures db.groups == old(db.groups) && db.groupRequests == old(db.groupRequests)
    {
      db.groupMembers := Sweep(db.groupMembers, MemberInGroup(groupId), MemberIdOf);
    }

    method GetByUserAndGroupId(userId: Uuid, groupId: Uuid) returns (r: Result<GroupMember, Error>)
      requires db.Valid()
      ensures r == MemberOf(db.groupMembers, userId, groupId)
    {
      var members := db.groupMembers.Values();
      var i := 0;
      while i < |members|
        invariant 0 <= i <= |members|
        invariant First(members[i..], IsMembership(userId, groupId)) == First(members, IsMembership(userId, groupId))
      {
        assert members[i..][0] == members[i] && members[i..][1..] == members[i + 1..];
        if members[i].userId == userId && members[i].groupId == groupId {
          return Ok(members[i]);
        }
        i := i + 1;
      }
      r := Err(DoesNotExist);
    }
  }
}
