/**
  The older filter engine of src/core/filters.py.  It shares the filter
  triple and the operator mapping with FilterBase, including the mapping's
  TypeError as written, but its intended version differs in four ways:
  it drops only None-valued fields (set and unset fields are alike), an
  unknown operator escapes as the mapping's KeyError, its Filter declares
  `value: str`, so a boolean, integer or id value fails validation, and a
  filter reads `item[field]` (a KeyError when the record lacks the field).
*/
module LegacyFilters {
  import opened Wrappers
  import opened FilterBase

  /** `self.dict(exclude_none=True)`. */
  predicate Dumped(e: FieldEntry)
  {
    e.value != VNone
  }

  /**
    One `Filter(field=..., operator=self._get_operator(...), value=value)`:
    the split, then the operator lookup, then pydantic's check of the value.
  */
  function ParseEntry(e: FieldEntry): Result<Filter, FilterError>
  {
    var parts := SplitDunder(e.key);
    if |parts| != 2 then Err(MalformedKey(e.key))
    else match GetOperator(parts[1])
      case None => Err(UnknownOperator(parts[1]))
      case Some(op) => if e.value.VStr? then Ok(Filter(parts[0], op, e.value)) else Err(NotAString(e.key))
  }

  function FiltersOf(entries: seq<FieldEntry>): Result<seq<Filter>, FilterError>
  {
    if entries == [] then Ok([])
    else if !Dumped(entries[0]) then FiltersOf(entries[1..])
    else match ParseEntry(entries[0])
      case Err(e) => Err(e)
      case Ok(f) => Prepend([f], FiltersOf(entries[1..]))
  }

  /**
    `get_filters` of the older engine as written.  The arguments of `Filter(...)`
    are evaluated before it validates anything, so the first dumped entry
    raises the split's ValueError or the TypeError of `_get_operator`, just as
    FilterBase's loop body does.
  */
  function FiltersOfAsWritten(entries: seq<FieldEntry>): (r: Result<seq<Filter>, FilterError>)
    ensures r.Ok? ==> r.value == []
  {
    FilterBase.FiltersOfAsWritten(AllSet(entries))
  }

  /** The entries as the older `dict()` sees them: whether a field was given plays no part. */
  function AllSet(entries: seq<FieldEntry>): (r: seq<FieldEntry>)
    ensures |r| == |entries|
    ensures forall i :: 0 <= i < |r| ==> r[i].key == entries[i].key && r[i].value == entries[i].value
    ensures forall i :: 0 <= i < |r| ==> (FilterBase.Dumped(r[i]) <==> Dumped(entries[i]))
  {
    seq(|entries|, i requires 0 <= i < |entries| => entries[i].(explicitlySet := true))
  }

  /** The older engine as written unfolds one entry at a time, like FilterBase's. */
  lemma FiltersOfAsWrittenStep(entries: seq<FieldEntry>)
    requires entries != []
    ensures FiltersOfAsWritten(entries)
         == if !Dumped(entries[0]) then FiltersOfAsWritten(entries[1..]) else Err(ParseEntryAsWritten(entries[0]))
  {
    assert AllSet(entries)[1..] == AllSet(entries[1..]);
  }

  /**
    As written, the older engine succeeds exactly when every field is None,
    and then agrees with its intended version; with well-formed keys any
    other filter set raises TypeError.
  */
  lemma {:induction false} FiltersOfAsWrittenRaises(entries: seq<FieldEntry>)
    ensures FiltersOfAsWritten(entries).Ok? <==> forall i :: 0 <= i < |entries| ==> entries[i].value == VNone
    ensures FiltersOfAsWritten(entries).Ok? ==> FiltersOf(entries) == Ok([])
    ensures AllWellFormed(entries) && FiltersOfAsWritten(entries).Err? ==> FiltersOfAsWritten(entries) == Err(NotSubscriptable)
  {
    if entries != [] {
      FiltersOfAsWrittenStep(entries);
      FiltersOfAsWrittenRaises(entries[1..]);
      assert forall i :: 1 <= i < |entries| ==> entries[1..][i - 1] == entries[i];
    }
  }

  /** `FilterSet.get_filters` of the older engine: the same loop without the try. */
  method GetFilters(entries: seq<FieldEntry>) returns (r: Result<seq<Filter>, FilterError>)
    ensures r == FiltersOf(entries)
  {
    var filters: seq<Filter> := [];
    var i := 0;
    assert entries[0..] == entries;
    match FiltersOf(entries) {
      case Err(_) =>
      case Ok(fs) => assert [] + fs == fs;
    }
    while i < |entries|
      invariant 0 <= i <= |entries|
      invariant FiltersOf(entries) == Prepend(filters, FiltersOf(entries[i..]))
    {
      assert entries[i..][0] == entries[i] && entries[i..][1..] == entries[i + 1..];
      var e := entries[i];
      if Dumped(e) {
        var parts := SplitDunder(e.key);
        if |parts| != 2 {
          return Err(MalformedKey(e.key));
        }
        var op := GetOperator(parts[1]);
        if op.None? {
          return Err(UnknownOperator(parts[1]));
        }
        if !e.value.VStr? {
          return Err(NotAString(e.key));
        }
        var f := Filter(parts[0], op.value, e.value);
        match FiltersOf(entries[i + 1..]) {
          case Err(_) =>
          case Ok(fs) => assert filters + ([f] + fs) == (filters + [f]) + fs;
        }
        filters := filters + [f];
      }
      i := i + 1;
    }
    assert entries[i..] == [] && filters + [] == filters;
    r := Ok(filters);
  }

  /** `Filter.__call__` on a dict item: `operator(item[field], value)`. */
  function Apply(f: Filter, item: map<string, Value>): (r: Result<bool, FilterError>)
    ensures f.field !in item ==> r == Err(MissingKey(f.field))
    ensures f.field in item ==> r == Compare(f.operator, item[f.field], f.value)
  {
    if f.field in item then Compare(f.operator, item[f.field], f.value)
    else Err(MissingKey(f.field))
  }

  /** Whether a field was explicitly given makes no difference to the older engine. */
  lemma {:induction false} UnsetIsIgnored(entries: seq<FieldEntry>, marks: seq<bool>)
    requires |marks| == |entries|
    ensures FiltersOf(entries)
         == FiltersOf(seq(|entries|, i requires 0 <= i < |entries| =>
                            FieldEntry(entries[i].key, entries[i].value, marks[i])))
  {
    var other := seq(|entries|, i requires 0 <= i < |entries| =>
                       FieldEntry(entries[i].key, entries[i].value, marks[i]));
    if entries != [] {
      var tail := seq(|entries| - 1, i requires 0 <= i < |entries| - 1 =>
                       FieldEntry(entries[1..][i].key, entries[1..][i].value, marks[1..][i]));
      assert other[1..] == tail;
      UnsetIsIgnored(entries[1..], marks[1..]);
      assert other[0].key == entries[0].key && other[0].value == entries[0].value;
    }
  }

  /**
    As intended, an unknown operator raises the mapping's KeyError rather
    than ValueError; as written both engines raise TypeError for it.
  */
  lemma UnknownOperatorIsKeyError(field: string, op: string, v: Value, set_: bool)
    requires NoDunder(field) && NoDunder(op)
    requires |field| == 0 || field[|field| - 1] != '_'
    requires GetOperator(op).None? && v != VNone
    ensures FiltersOf([FieldEntry(field + "__" + op, v, set_)]) == Err(UnknownOperator(op))
    ensures FilterBase.FiltersOf([FieldEntry(field + "__" + op, v, true)]) == Err(InvalidOperator(op))
    ensures FiltersOfAsWritten([FieldEntry(field + "__" + op, v, set_)]) == Err(NotSubscriptable)
    ensures FilterBase.FiltersOfAsWritten([FieldEntry(field + "__" + op, v, true)]) == Err(NotSubscriptable)
  {
    SplitKey(field, op);
  }

  /**
    A boolean, integer or id value under a known operator: the older engine's
    intended Filter refuses it, where FilterBase builds the filter.  As
    written, both raise the TypeError of `_get_operator` before any Filter is
    validated.
  */
  lemma NonStringRefused(field: string, op: string, v: Value)
    requires NoDunder(field) && NoDunder(op)
    requires |field| == 0 || field[|field| - 1] != '_'
    requires GetOperator(op).Some? && v != VNone && !v.VStr?
    ensures FiltersOfAsWritten([FieldEntry(field + "__" + op, v, true)]) == Err(NotSubscriptable)
    ensures FilterBase.FiltersOfAsWritten([FieldEntry(field + "__" + op, v, true)]) == Err(NotSubscriptable)
    ensures FiltersOf([FieldEntry(field + "__" + op, v, true)]) == Err(NotAString(field + "__" + op))
    ensures FilterBase.FiltersOf([FieldEntry(field + "__" + op, v, true)]) == Ok([Filter(field, GetOperator(op).value, v)])
  {
    SplitKey(field, op);
    var e := FieldEntry(field + "__" + op, v, true);
    assert [e][1..] == [];
    assert [Filter(field, GetOperator(op).value, v)] + [] == [Filter(field, GetOperator(op).value, v)];
  }

  /**
    When every field was explicitly given, every key is well formed and every
    value is a string or None, the two intended engines produce the same
    filters, and the two engines as written raise the same exception.
  */
  lemma {:induction false} EnginesAgree(entries: seq<FieldEntry>)
    requires AllWellFormed(entries)
    requires forall i :: 0 <= i < |entries| ==> entries[i].explicitlySet
    requires forall i :: 0 <= i < |entries| ==> entries[i].value.VStr? || entries[i].value == VNone
    ensures FiltersOf(entries) == FilterBase.FiltersOf(entries)
    ensures FiltersOfAsWritten(entries) == FilterBase.FiltersOfAsWritten(entries)
  {
    if entries != [] {
      assert forall i :: 0 <= i < |entries[1..]| ==> entries[1..][i] == entries[i + 1];
      EnginesAgree(entries[1..]);
      FiltersOfAsWrittenStep(entries);
      if Dumped(entries[0]) {
        assert WellFormedKey(entries[0].key);
        assert ParseEntry(entries[0]) == FilterBase.ParseEntry(entries[0]);
      }
    }
  }

  /** One name filter: the intended older engine builds it, the written one raises TypeError. */
  lemma TypeErrorWitness()
    ensures FiltersOf([FieldEntry("name__eq", VStr("group"), false)]) == Ok([Filter("name", Eq, VStr("group"))])
    ensures FiltersOfAsWritten([FieldEntry("name__eq", VStr("group"), false)]) == Err(NotSubscriptable)
  {
    SplitKey("name", "eq");
    assert "name" + "__" + "eq" == "name__eq";
    var e := FieldEntry("name__eq", VStr("group"), false);
    assert [e][1..] == [];
    assert [Filter("name", Eq, VStr("group"))] + [] == [Filter("name", Eq, VStr("group"))];
  }
}
