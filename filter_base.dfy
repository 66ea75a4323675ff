/**
  The filter engine of src/core/filters/base.py.

  A filter is a triple (field, operator, value).  A filter set declares fields
  named `field__op`; `GetFilters` turns every field that was explicitly given
  a non-None value into a filter, in declaration order.  Records are seen
  through their attribute map, so `getattr(item, field)` is a map lookup.
*/
module FilterBase {
  import opened Wrappers

  /** The values a record attribute or a filter may hold (UUIDs as naturals). */
  datatype Value =
    | VNone
    | VBool(b: bool)
    | VInt(i: int)
    | VStr(s: string)
    | VUuid(u: nat)

  /** The closed operator set of `_operators_mapping`. */
  datatype Op = Eq | Ne | Lt | Le | Gt | Ge

  /** The Python exceptions the engine can raise. */
  datatype FilterError =
    | InvalidOperator(name: string)   // ValueError("Invalid operator: ...")
    | MalformedKey(key: string)       // ValueError from unpacking key.split("__")
    | UnknownOperator(name: string)   // KeyError from the mapping lookup
    | MissingAttribute(field: string) // AttributeError from getattr(item, field)
    | MissingKey(field: string)       // KeyError from item[field] (the older engine)
    | Incomparable                    // TypeError from an ordering comparison
    | NotAString(key: string)         // ValidationError: the older engine's filter value is a str
    | NotSubscriptable                // TypeError from indexing pydantic's ModelPrivateAttr

  datatype Filter = Filter(field: string, operator: Op, value: Value)

  /** How Python compares: bool is a subtype of int, and only == and != work across types. */
  function Numeric(v: Value): Option<int>
  {
    match v
    case VBool(b) => Some(if b then 1 else 0)
    case VInt(i) => Some(i)
    case _ => None
  }

  /** Lexicographic order on code points, as Python orders str. */
  predicate StrLess(a: string, b: string)
  {
    if |a| == 0 then |b| > 0
    else if |b| == 0 then false
    else if a[0] != b[0] then a[0] < b[0]
    else StrLess(a[1..], b[1..])
  }

  predicate PyEq(a: Value, b: Value)
  {
    if Numeric(a).Some? && Numeric(b).Some? then Numeric(a).value == Numeric(b).value
    else a == b
  }

  /** `a < b`, or None where Python raises TypeError. */
  function PyLess(a: Value, b: Value): Option<bool>
  {
    if Numeric(a).Some? && Numeric(b).Some? then Some(Numeric(a).value < Numeric(b).value)
    else match (a, b)
      case (VStr(x), VStr(y)) => Some(StrLess(x, y))
      case (VUuid(x), VUuid(y)) => Some(x < y)
      case _ => None
  }

  /** Python's str order is a strict total order: exactly one of a < b, a == b, b < a. */
  lemma {:induction false} StrLessTotal(a: string, b: string)
    ensures !StrLess(a, a)
    ensures StrLess(a, b) || a == b || StrLess(b, a)
    ensures !(StrLess(a, b) && StrLess(b, a))
  {
    if |a| > 0 && |b| > 0 && a[0] == b[0] {
      StrLessTotal(a[1..], b[1..]);
      if a[1..] == b[1..] {
        assert a == [a[0]] + a[1..] && b == [b[0]] + b[1..];
      }
    }
    if |a| > 0 {
      StrLessTotal(a[1..], a[1..]);
    }
  }

  /** `operator.<op>(a, b)`. */
  function Compare(op: Op, a: Value, b: Value): (r: Result<bool, FilterError>)
    ensures op == Eq ==> r == Ok(PyEq(a, b))
    ensures op == Ne ==> r == Ok(!PyEq(a, b))
    ensures r.Err? ==> r.error == Incomparable && PyLess(a, b).None?
    ensures op != Eq && op != Ne ==> (r.Err? <==> PyLess(a, b).None?)
  {
    match op
    case Eq => Ok(PyEq(a, b))
    case Ne => Ok(!PyEq(a, b))
    case Lt => if PyLess(a, b).Some? then Ok(PyLess(a, b).value) else Err(Incomparable)
    case Gt => if PyLess(b, a).Some? then Ok(PyLess(b, a).value) else Err(Incomparable)
    case Le =>
      if PyLess(a, b).Some? then Ok(PyLess(a, b).value || PyEq(a, b)) else Err(Incomparable)
    case Ge =>
      if PyLess(b, a).Some? then Ok(PyLess(b, a).value || PyEq(a, b)) else Err(Incomparable)
  }
  /** On integers the four orderings are the integer order; none of them raises. */
  lemma CompareIntegers(x: int, y: int)
    ensures Compare(Lt, VInt(x), VInt(y)) == Ok(x < y)
    ensures Compare(Le, VInt(x), VInt(y)) == Ok(x <= y)
    ensures Compare(Gt, VInt(x), VInt(y)) == Ok(x > y)
    ensures Compare(Ge, VInt(x), VInt(y)) == Ok(x >= y)
  {
  }

  /**
    On strings the four orderings are the lexicographic order, and because it
    is total, `>=` is the negation of `<` and `<=` that of `>`.
  */
  lemma CompareStrings(x: string, y: string)
    ensures Compare(Lt, VStr(x), VStr(y)) == Ok(StrLess(x, y))
    ensures Compare(Gt, VStr(x), VStr(y)) == Ok(StrLess(y, x))
    ensures Compare(Le, VStr(x), VStr(y)) == Ok(!StrLess(y, x))
    ensures Compare(Ge, VStr(x), VStr(y)) == Ok(!StrLess(x, y))
  {
    StrLessTotal(x, y);
    if x == y {
      StrLessTotal(x, x);
    }
  }


  /** `Filter.__call__`: read the attribute off the record and compare it with the value. */
  function Apply(f: Filter, item: map<string, Value>): (r: Result<bool, FilterError>)
    ensures f.field !in item ==> r == Err(MissingAttribute(f.field))
    ensures f.field in item ==> r == Compare(f.operator, item[f.field], f.value)
  {
    if f.field in item then Compare(f.operator, item[f.field], f.value)
    else Err(MissingAttribute(f.field))
  }

  /** `all(filter_(item) for filter_ in filters)`: short-circuits on the first false. */
  function AllPass(filters: seq<Filter>, item: map<string, Value>): Result<bool, FilterError>
  {
    if filters == [] then Ok(true)
    else match Apply(filters[0], item)
      case Err(e) => Err(e)
      case Ok(false) => Ok(false)
      case Ok(true) => AllPass(filters[1..], item)
  }

  /** Every filter is an equality on a field the record has: then AllPass never raises. */
  ghost predicate EqualitiesOn(filters: seq<Filter>, item: map<string, Value>)
  {
    forall i :: 0 <= i < |filters| ==> filters[i].operator == Eq && filters[i].field in item
  }

  lemma {:induction false} AllPassEqualities(filters: seq<Filter>, item: map<string, Value>)
    requires EqualitiesOn(filters, item)
    ensures AllPass(filters, item)
         == Ok(forall i :: 0 <= i < |filters| ==> PyEq(item[filters[i].field], filters[i].value))
  {
    if filters != [] {
      assert EqualitiesOn(filters[1..], item);
      AllPassEqualities(filters[1..], item);
      assert forall i :: 1 <= i < |filters| ==> filters[1..][i - 1] == filters[i];
    }
  }

  // ---- key parsing -------------------------------------------------------

  /** Python's `s.split("__")`: leftmost, non-overlapping occurrences of the separator. */
  function SplitDunder(s: string): (r: seq<string>)
    ensures |r| >= 1
  {
    if |s| < 2 then [s]
    else if s[0] == '_' && s[1] == '_' then [""] + SplitDunder(s[2..])
    else var rest := SplitDunder(s[1..]); [[s[0]] + rest[0]] + rest[1..]
  }

  /** `"__".join(parts)`. */
  function JoinDunder(parts: seq<string>): string
    requires |parts| >= 1
  {
    if |parts| == 1 then parts[0] else parts[0] + "__" + JoinDunder(parts[1..])
  }

  /** Splitting loses nothing: joining the pieces gives the key back. */
  lemma {:induction false} SplitJoin(s: string)
    ensures JoinDunder(SplitDunder(s)) == s
  {
    if |s| >= 2 {
      if s[0] == '_' && s[1] == '_' {
        SplitJoin(s[2..]);
        var rest := SplitDunder(s[2..]);
        assert SplitDunder(s) == [""] + rest;
        assert ([""] + rest)[1..] == rest;
      } else {
        SplitJoin(s[1..]);
        JoinPrepend(s[0], SplitDunder(s[1..]));
        assert [s[0]] + s[1..] == s;
      }
    }
  }

  /** A character glued to the first part comes out in front of the joined string. */
  lemma JoinPrepend(c: char, parts: seq<string>)
    requires |parts| >= 1
    ensures JoinDunder([[c] + parts[0]] + parts[1..]) == [c] + JoinDunder(parts)
  {
    var r := [[c] + parts[0]] + parts[1..];
    if |parts| > 1 {
      var x, y := parts[0], JoinDunder(parts[1..]);
      calc {
        JoinDunder(r);
        { assert r[0] == [c] + x && r[1..] == parts[1..]; }
        [c] + x + "__" + y;
        { Assoc3(c, x, y); }
        [c] + (x + "__" + y);
      }
    }
  }

  lemma Assoc3(c: char, x: string, y: string)
    ensures [c] + x + "__" + y == [c] + (x + "__" + y)
  {
  }

  predicate NoDunder(s: string)
  {
    forall i :: 0 <= i < |s| - 1 ==> !(s[i] == '_' && s[i + 1] == '_')
  }

  lemma {:induction false} SplitNoDunder(s: string)
    requires NoDunder(s)
    ensures SplitDunder(s) == [s]
  {
    if |s| >= 2 {
      assert NoDunder(s[1..]) by {
        forall i | 0 <= i < |s[1..]| - 1 ensures !(s[1..][i] == '_' && s[1..][i + 1] == '_') {
          assert s[1..][i] == s[i + 1] && s[1..][i + 1] == s[i + 2];
        }
      }
      SplitNoDunder(s[1..]);
      assert [s[0]] + s[1..] == s;
    }
  }

  /** A declared key `field__op` whose field has no `__` and does not end in `_` splits in two. */
  lemma {:induction false} SplitKey(field: string, op: string)
    requires NoDunder(field) && NoDunder(op)
    requires |field| == 0 || field[|field| - 1] != '_'
    ensures SplitDunder(field + "__" + op) == [field, op]
  {
    if |field| == 0 {
      assert field + "__" + op == "__" + op;
      assert ("__" + op)[2..] == op;
      SplitNoDunder(op);
    } else {
      var s := field + "__" + op;
      assert s[1..] == field[1..] + "__" + op;
      assert NoDunder(field[1..]) by {
        forall i | 0 <= i < |field[1..]| - 1
          ensures !(field[1..][i] == '_' && field[1..][i + 1] == '_')
        {
          assert field[1..][i] == field[i + 1] && field[1..][i + 1] == field[i + 2];
        }
      }
      SplitKey(field[1..], op);
      if |field| == 1 {
        assert s[0] == field[0] && s[1] == '_' && field[0] != '_';
      } else {
        assert s[0] == field[0] && s[1] == field[1];
      }
      assert [s[0]] + field[1..] == field;
    }
  }

  /** `_get_operator`: the string-keyed mapping, None where it raises KeyError. */
  function GetOperator(name: string): (r: Option<Op>)
    ensures r.Some? <==> name in {"eq", "ne", "lt", "le", "gt", "ge"}
  {
    match name
    case "eq" => Some(Eq)
    case "ne" => Some(Ne)
    case "lt" => Some(Lt)
    case "le" => Some(Le)
    case "gt" => Some(Gt)
    case "ge" => Some(Ge)
    case _ => None
  }

  /** The name `_operators_mapping` gives each operator. */
  function OpName(op: Op): string
  {
    match op
    case Eq => "eq"
    case Ne => "ne"
    case Lt => "lt"
    case Le => "le"
    case Gt => "gt"
    case Ge => "ge"
  }

  /**
    `_get_operator` as the code stands under pydantic v2.  An unannotated
    class attribute whose name starts with `_` becomes a private attribute of
    the model: it is taken out of the class namespace, and reading
    `cls._operators_mapping` gives the ModelPrivateAttr that wraps the dict.
    Indexing that object raises TypeError, whatever the name.
  */
  function GetOperatorAsWritten(name: string): Result<Op, FilterError>
  {
    Err(NotSubscriptable)
  }

  /** The intended mapping finds every operator under its name; as written, the lookup raises for each of them. */
  lemma OperatorNames(op: Op)
    ensures GetOperator(OpName(op)) == Some(op)
    ensures GetOperatorAsWritten(OpName(op)) == Err(NotSubscriptable)
  {
  }

  // ---- filter sets -------------------------------------------------------

  /**
    One declared field of a filter set: its `field__op` name, its value, and
    whether the caller supplied it (pydantic's fields-set).
  */
  datatype FieldEntry = FieldEntry(key: string, value: Value, explicitlySet: bool)

  /** `self.dict(exclude_none=True, exclude_unset=True)`. */
  predicate Dumped(e: FieldEntry)
  {
    e.explicitlySet && e.value != VNone
  }

  /** Parses one dumped key into a filter, as the loop body does. */
  function ParseEntry(e: FieldEntry): Result<Filter, FilterError>
  {
    var parts := SplitDunder(e.key);
    if |parts| != 2 then Err(MalformedKey(e.key))
    else match GetOperator(parts[1])
      case None => Err(InvalidOperator(parts[1]))
      case Some(op) => Ok(Filter(parts[0], op, e.value))
  }

  /** What `get_filters` computes: the filters of the dumped entries, or the first error. */
  function FiltersOf(entries: seq<FieldEntry>): Result<seq<Filter>, FilterError>
  {
    if entries == [] then Ok([])
    else if !Dumped(entries[0]) then FiltersOf(entries[1..])
    else match ParseEntry(entries[0])
      case Err(e) => Err(e)
      case Ok(f) => Prepend([f], FiltersOf(entries[1..]))
  }

  /**
    The loop body as written, which always raises: the split's ValueError,
    or else the TypeError of `_get_operator`, which the `except KeyError`
    does not catch.
  */
  function ParseEntryAsWritten(e: FieldEntry): FilterError
  {
    var parts := SplitDunder(e.key);
    if |parts| != 2 then MalformedKey(e.key) else GetOperatorAsWritten(parts[1]).error
  }

  /** What `get_filters` computes as written: the first dumped entry raises, so no filter is ever built. */
  function FiltersOfAsWritten(entries: seq<FieldEntry>): (r: Result<seq<Filter>, FilterError>)
    ensures r.Ok? ==> r.value == []
  {
    if entries == [] then Ok([])
    else if !Dumped(entries[0]) then FiltersOfAsWritten(entries[1..])
    else Err(ParseEntryAsWritten(entries[0]))
  }

  /** The dumped entries, in declaration order. */
  function DumpedEntries(entries: seq<FieldEntry>): seq<FieldEntry>
  {
    if entries == [] then []
    else (if Dumped(entries[0]) then [entries[0]] else []) + DumpedEntries(entries[1..])
  }

  /** `filters + fs` inside a successful result; failures pass through. */
  function Prepend(filters: seq<Filter>, r: Result<seq<Filter>, FilterError>): Result<seq<Filter>, FilterError>
  {
    match r
    case Err(e) => Err(e)
    case Ok(fs) => Ok(filters + fs)
  }

  /** `FilterSet.get_filters`: a loop over the dumped fields that appends one filter each. */
  method GetFilters(entries: seq<FieldEntry>) returns (r: Result<seq<Filter>, FilterError>)
    ensures r == FiltersOf(entries)
  {
    var filters: seq<Filter> := [];
    var i := 0;
    assert entries[0..] == entries;
    match FiltersOf(entries) {
      case Err(_) =>
      case Ok(fs) => assert [] + fs == fs;
    }
    while i < |entries|
      invariant 0 <= i <= |entries|
      invariant FiltersOf(entries) == Prepend(filters, FiltersOf(entries[i..]))
    {
      assert entries[i..][0] == entries[i] && entries[i..][1..] == entries[i + 1..];
      var e := entries[i];
      if Dumped(e) {
        var parts := SplitDunder(e.key);
        if |parts| != 2 {
          return Err(MalformedKey(e.key));
        }
        var op := GetOperator(parts[1]);
        if op.None? {
          return Err(InvalidOperator(parts[1]));
        }
        var f := Filter(parts[0], op.value, e.value);
        assert ParseEntry(e) == Ok(f);
        match FiltersOf(entries[i + 1..]) {
          case Err(_) =>
          case Ok(fs) => assert filters + ([f] + fs) == (filters + [f]) + fs;
        }
        filters := filters + [f];
      }
      i := i + 1;
    }
    assert entries[i..] == [] && filters + [] == filters;
    r := Ok(filters);
  }

  /**
    As written, `get_filters` succeeds only when nothing is dumped, and then
    agrees with the intended engine; otherwise the first dumped entry raises:
    ValueError when its key does not split in two, TypeError when it does.
  */
  lemma {:induction false} FiltersOfAsWrittenRaises(entries: seq<FieldEntry>)
    ensures DumpedEntries(entries) == [] ==> FiltersOfAsWritten(entries) == Ok([]) && FiltersOf(entries) == Ok([])
    ensures DumpedEntries(entries) != [] ==>
              var e := DumpedEntries(entries)[0];
              FiltersOfAsWritten(entries) == Err(if |SplitDunder(e.key)| == 2 then NotSubscriptable else MalformedKey(e.key))
  {
    if entries != [] {
      FiltersOfAsWrittenRaises(entries[1..]);
      if !Dumped(entries[0]) {
        assert DumpedEntries(entries) == [] + DumpedEntries(entries[1..]);
      } else {
        assert DumpedEntries(entries)[0] == entries[0];
      }
    }
  }

  /** An empty filter set yields no filters. */
  lemma EmptyFilterSet()
    ensures FiltersOf([]) == Ok([])
  {
  }

  /** A declared key whose two halves parse. */
  ghost predicate WellFormedKey(key: string)
  {
    |SplitDunder(key)| == 2 && GetOperator(SplitDunder(key)[1]).Some?
  }

  /** Every declared key of the filter set is well formed. */
  ghost predicate AllWellFormed(entries: seq<FieldEntry>)
  {
    entries != [] ==> WellFormedKey(entries[0].key) && AllWellFormed(entries[1..])
  }

  /**
    With well-formed keys the intended `get_filters` never fails, and yields
    exactly one filter per dumped entry, in declaration order: the entry's key
    split into field and mapped operator, and its value.  As written it
    raises TypeError as soon as anything is dumped.
  */
  lemma {:induction false} FiltersOfWellFormed(entries: seq<FieldEntry>)
    requires AllWellFormed(entries)
    ensures FiltersOfAsWritten(entries) == if DumpedEntries(entries) == [] then Ok([]) else Err(NotSubscriptable)
    ensures FiltersOf(entries).Ok?
    ensures |FiltersOf(entries).value| == |DumpedEntries(entries)|
    ensures forall j :: 0 <= j < |DumpedEntries(entries)| ==>
              ParseEntry(DumpedEntries(entries)[j]) == Ok(FiltersOf(entries).value[j])
  {
    if entries != [] {
      FiltersOfWellFormed(entries[1..]);
      assert entries == [entries[0]] + entries[1..];
      if Dumped(entries[0]) {
        FiltersOfCons(entries[0], entries[1..]);
        assert DumpedEntries(entries) != [];
      } else {
        assert DumpedEntries(entries) == [] + DumpedEntries(entries[1..]);
      }
    }
  }

  lemma FiltersOfCons(e: FieldEntry, rest: seq<FieldEntry>)
    requires Dumped(e) && WellFormedKey(e.key)
    requires FiltersOf(rest).Ok?
    requires |FiltersOf(rest).value| == |DumpedEntries(rest)|
    requires forall j :: 0 <= j < |DumpedEntries(rest)| ==>
               ParseEntry(DumpedEntries(rest)[j]) == Ok(FiltersOf(rest).value[j])
    ensures FiltersOf([e] + rest).Ok?
    ensures |FiltersOf([e] + rest).value| == |DumpedEntries([e] + rest)|
    ensures forall j :: 0 <= j < |DumpedEntries([e] + rest)| ==>
              ParseEntry(DumpedEntries([e] + rest)[j]) == Ok(FiltersOf([e] + rest).value[j])
  {
    var entries := [e] + rest;
    assert entries[0] == e && entries[1..] == rest;
    var ds := DumpedEntries(rest);
    var fs := FiltersOf(rest).value;
    var f := ParseEntry(e).value;
    assert FiltersOf(entries) == Ok([f] + fs);
    assert DumpedEntries(entries) == [e] + ds;
  }

  /**
    A key outside the operator set makes the intended `get_filters` raise
    ValueError; as written the lookup's TypeError escapes before the name is
    even looked at.
  */
  lemma BadOperator(field: string, op: string, v: Value)
    requires NoDunder(field) && NoDunder(op)
    requires |field| == 0 || field[|field| - 1] != '_'
    requires GetOperator(op).None? && v != VNone
    ensures FiltersOf([FieldEntry(field + "__" + op, v, true)]) == Err(InvalidOperator(op))
    ensures FiltersOfAsWritten([FieldEntry(field + "__" + op, v, true)]) == Err(NotSubscriptable)
  {
    SplitKey(field, op);
  }

  // ---- the SQL translation -----------------------------------------------

  /** `SQLAlchemyFilter`: the same triple, evaluated against table columns instead. */
  datatype SqlFilter = SqlFilter(field: string, operator: Op, value: Value)

  function FromFilter(f: Filter): (r: SqlFilter)
    ensures r.field == f.field && r.operator == f.operator && r.value == f.value
  {
    SqlFilter(f.field, f.operator, f.value)
  }
}
