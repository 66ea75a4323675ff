/**
  An insertion-ordered dictionary keyed by UUID, the semantics of the Python
  dicts the fake repositories store their records in: assigning to a present
  key keeps its position, assigning to a new key appends it, deleting removes
  it, and `values()` follows key order.
*/
module Tables {
  import opened Wrappers
  import opened GroupModels

  datatype Table<T> = Table(keys: seq<Uuid>, rows: map<Uuid, T>) {

    ghost predicate Valid()
    {
      Distinct(keys) && forall k :: k in rows <==> k in keys
    }

    /** `list(d.values())`. */
    function Values(): (vs: seq<T>)
      requires Valid()
      ensures |vs| == |keys|
      ensures forall i :: 0 <= i < |keys| ==> vs[i] == rows[keys[i]]
    {
      seq(|keys|, i requires 0 <= i < |keys| => rows[keys[i]])
    }

    /** `d[k] = v`. */
    function Set(k: Uuid, v: T): (t: Table<T>)
      requires Valid()
      ensures t.Valid()
      ensures t.rows == rows[k := v]
      ensures t.keys == if k in rows then keys else keys + [k]
    {
      if k in rows then Table(keys, rows[k := v]) else Table(keys + [k], rows[k := v])
    }

    /** `del d[k]`. */
    function Del(k: Uuid): (t: Table<T>)
      requires Valid() && k in rows
      ensures t.Valid()
      ensures t.rows == rows - {k}
      ensures t.keys == Without(keys, k)
    {
      WithoutKeys(keys, k);
      Table(Without(keys, k), rows - {k})
    }
  }

  ghost predicate Distinct(keys: seq<Uuid>)
  {
    forall i, j :: 0 <= i < j < |keys| ==> keys[i] != keys[j]
  }

  lemma DistinctTail(keys: seq<Uuid>)
    requires Distinct(keys) && keys != []
    ensures Distinct(keys[1..]) && keys[0] !in keys[1..]
  {
    forall i | 0 <= i < |keys[1..]| ensures keys[1..][i] != keys[0] {
      assert keys[1..][i] == keys[i + 1];
    }
    forall i, j | 0 <= i < j < |keys[1..]| ensures keys[1..][i] != keys[1..][j] {
      assert keys[1..][i] == keys[i + 1] && keys[1..][j] == keys[j + 1];
    }
  }

  /** Putting a key not in `w` in front of distinct keys keeps them distinct. */
  lemma DistinctCons(x: Uuid, w: seq<Uuid>)
    requires Distinct(w) && x !in w
    ensures Distinct([x] + w)
  {
    var r := [x] + w;
    forall i, j | 0 <= i < j < |r| ensures r[i] != r[j] {
      assert r[j] == w[j - 1];
      if i > 0 { assert r[i] == w[i - 1]; }
    }
  }

  function Empty<T>(): (t: Table<T>)
    ensures t.Valid() && t.rows == map[]
  {
    Table([], map[])
  }

  /** The keys of `keys` other than k, in order. */
  function Without(keys: seq<Uuid>, k: Uuid): seq<Uuid>
  {
    if keys == [] then []
    else (if keys[0] == k then [] else [keys[0]]) + Without(keys[1..], k)
  }

  lemma {:induction false} WithoutKeys(keys: seq<Uuid>, k: Uuid)
    requires Distinct(keys)
    ensures forall x :: x in Without(keys, k) <==> x in keys && x != k
    ensures Distinct(Without(keys, k))
  {
    WithoutMembers(keys, k);
    WithoutDistinct(keys, k);
  }

  lemma {:induction false} WithoutMembers(keys: seq<Uuid>, k: Uuid)
    ensures forall x :: x in Without(keys, k) <==> x in keys && x != k
  {
    if keys != [] {
      WithoutMembers(keys[1..], k);
      assert forall x :: x in keys <==> x == keys[0] || x in keys[1..];
    }
  }

  lemma {:induction false} WithoutDistinct(keys: seq<Uuid>, k: Uuid)
    requires Distinct(keys)
    ensures Distinct(Without(keys, k))
  {
    if keys != [] {
      DistinctTail(keys);
      WithoutDistinct(keys[1..], k);
      if keys[0] != k {
        WithoutMembers(keys[1..], k);
        DistinctCons(keys[0], Without(keys[1..], k));
      } else {
        assert Without(keys, k) == Without(keys[1..], k);
      }
    }
  }

  /**
    `for k in list(d.keys()): if drop(d[k]): del d[k]`, walking the given
    snapshot of the keys; a key already gone is passed over.
  */
  function DropWhere<T>(t: Table<T>, ks: seq<Uuid>, drop: T -> bool): (r: Table<T>)
    requires t.Valid()
    ensures r.Valid()
    decreases |ks|
  {
    if ks == [] then t
    else DropWhere(if ks[0] in t.rows && drop(t.rows[ks[0]]) then t.Del(ks[0]) else t, ks[1..], drop)
  }

  /** One step of the sweep over a key that is present. */
  lemma DropWhereStep<T>(t: Table<T>, ks: seq<Uuid>, drop: T -> bool)
    requires t.Valid() && ks != [] && ks[0] in t.rows
    ensures DropWhere(t, ks, drop) == DropWhere(if drop(t.rows[ks[0]]) then t.Del(ks[0]) else t, ks[1..], drop)
  {
  }

  /** One step of a sweep over a snapshot of distinct keys, all still present from position i on. */
  lemma SweepStep<T>(t: Table<T>, ids: seq<Uuid>, i: nat, drop: T -> bool)
    requires t.Valid() && Distinct(ids) && i < |ids|
    requires forall j :: i <= j < |ids| ==> ids[j] in t.rows
    ensures var t' := if drop(t.rows[ids[i]]) then t.Del(ids[i]) else t;
            && DropWhere(t', ids[i + 1..], drop) == DropWhere(t, ids[i..], drop)
            && (forall j :: i + 1 <= j < |ids| ==> ids[j] in t'.rows)
            && (forall k :: k in t'.rows ==> k in t.rows && t'.rows[k] == t.rows[k])
  {
    assert ids[i..][0] == ids[i] && ids[i..][1..] == ids[i + 1..];
    DropWhereStep(t, ids[i..], drop);
  }

  /** The sweep removes exactly the listed rows that `drop` accepts and leaves every other row as it was. */
  lemma {:induction false} DropWhereRows<T>(t: Table<T>, ks: seq<Uuid>, drop: T -> bool)
    requires t.Valid()
    ensures forall k :: k in DropWhere(t, ks, drop).rows <==> k in t.rows && !(k in ks && drop(t.rows[k]))
    ensures forall k :: k in DropWhere(t, ks, drop).rows ==> DropWhere(t, ks, drop).rows[k] == t.rows[k]
    decreases |ks|
  {
    if ks != [] {
      var t1 := if ks[0] in t.rows && drop(t.rows[ks[0]]) then t.Del(ks[0]) else t;
      DropWhereRows(t1, ks[1..], drop);
      assert forall k :: k in ks <==> k == ks[0] || k in ks[1..];
    }
  }

  /** A list comprehension's `[x for x in xs if p(x)]`. */
  function Filtered<T>(xs: seq<T>, p: T -> bool): (r: seq<T>)
    ensures |r| <= |xs|
    ensures forall i :: 0 <= i < |r| ==> r[i] in xs && p(r[i])
    ensures forall i :: 0 <= i < |xs| && p(xs[i]) ==> xs[i] in r
  {
    if xs == [] then [] else (if p(xs[0]) then [xs[0]] else []) + Filtered(xs[1..], p)
  }

  /** Exactly the elements p accepts are kept. */
  lemma {:induction false} FilteredMembers<T>(xs: seq<T>, p: T -> bool)
    ensures forall x :: x in Filtered(xs, p) <==> x in xs && p(x)
  {
    if xs != [] {
      FilteredMembers(xs[1..], p);
      assert xs == [xs[0]] + xs[1..];
    }
  }

  /** Filtering keeps the relative order: it distributes over concatenation. */
  lemma {:induction false} FilteredAppend<T>(xs: seq<T>, ys: seq<T>, p: T -> bool)
    ensures Filtered(xs + ys, p) == Filtered(xs, p) + Filtered(ys, p)
  {
    if xs == [] {
      assert xs + ys == ys;
    } else {
      var h := if p(xs[0]) then [xs[0]] else [];
      assert (xs + ys)[0] == xs[0] && (xs + ys)[1..] == xs[1..] + ys;
      FilteredAppend(xs[1..], ys, p);
      calc {
        Filtered(xs + ys, p);
        h + Filtered(xs[1..] + ys, p);
        h + (Filtered(xs[1..], p) + Filtered(ys, p));
        (h + Filtered(xs[1..], p)) + Filtered(ys, p);
      }
    }
  }

  /** Filtering with the always-true predicate gives the list back. */
  lemma {:induction false} FilteredAll<T>(xs: seq<T>, p: T -> bool)
    requires forall x :: x in xs ==> p(x)
    ensures Filtered(xs, p) == xs
  {
    if xs != [] {
      assert forall x :: x in xs[1..] ==> x in xs;
      FilteredAll(xs[1..], p);
      assert xs == [xs[0]] + xs[1..];
    }
  }

  /** The first element p accepts, in order. */
  function First<T>(xs: seq<T>, p: T -> bool): (r: Option<T>)
    ensures r.Some? ==> r.value in xs && p(r.value)
    ensures r.None? ==> forall x :: x in xs ==> !p(x)
  {
    if xs == [] then None
    else if p(xs[0]) then Some(xs[0])
    else First(xs[1..], p)
  }

  /** The first match is the head of the filtered list. */
  lemma {:induction false} FirstIsHeadOfFiltered<T>(xs: seq<T>, p: T -> bool)
    ensures First(xs, p).Some? <==> Filtered(xs, p) != []
    ensures First(xs, p).Some? ==> First(xs, p).value == Filtered(xs, p)[0]
  {
    if xs != [] {
      FirstIsHeadOfFiltered(xs[1..], p);
    }
  }

  /** The first match comes before every other match: an index for it, with no match earlier. */
  lemma {:induction false} FirstIndex<T>(xs: seq<T>, p: T -> bool) returns (i: nat)
    requires First(xs, p).Some?
    ensures i < |xs| && xs[i] == First(xs, p).value
    ensures forall j :: 0 <= j < i ==> !p(xs[j])
  {
    if p(xs[0]) {
      i := 0;
    } else {
      var i' := FirstIndex(xs[1..], p);
      i := i' + 1;
      forall j | 0 <= j < i ensures !p(xs[j]) {
        if j > 0 { assert xs[j] == xs[1..][j - 1]; }
      }
    }
  }

  /** Assigning a new key appends its value after all others. */
  lemma SetNewAppends<T>(t: Table<T>, k: Uuid, v: T)
    requires t.Valid() && k !in t.rows
    ensures t.Set(k, v).Values() == t.Values() + [v]
  {
    var u := t.Set(k, v);
    assert |u.Values()| == |t.Values() + [v]|;
    forall i | 0 <= i < |u.Values()| ensures u.Values()[i] == (t.Values() + [v])[i] {
      if i < |t.keys| {
        assert t.keys[i] != k;
      }
    }
  }

  /** Assigning a present key keeps every value in its place. */
  lemma SetPresentInPlace<T>(t: Table<T>, k: Uuid, v: T)
    requires t.Valid() && k in t.rows
    ensures |t.Set(k, v).Values()| == |t.Values()|
    ensures forall i :: 0 <= i < |t.keys| ==>
              t.Set(k, v).Values()[i] == if t.keys[i] == k then v else t.Values()[i]
  {
  }

  /** A table's values are exactly its rows. */
  lemma ValuesAreRows<T>(t: Table<T>)
    requires t.Valid()
    ensures forall x :: x in t.Values() <==> exists k :: k in t.rows && t.rows[k] == x
  {
    forall x | x in t.Values() ensures exists k :: k in t.rows && t.rows[k] == x {
      var i :| 0 <= i < |t.Values()| && t.Values()[i] == x;
      assert t.keys[i] in t.rows;
    }
    forall x | exists k :: k in t.rows && t.rows[k] == x ensures x in t.Values() {
      var k :| k in t.rows && t.rows[k] == x;
      var i :| 0 <= i < |t.keys| && t.keys[i] == k;
      assert t.Values()[i] == x;
    }
  }
}
