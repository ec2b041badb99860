/** Database tables whose rows have a unique natural key and are never removed, only
    marked deleted. The unique constraint spans deleted rows too. */
module SoftDeleteTable {
  import opened Wrappers

  datatype Row<K, V> = Row(key: K, value: V, deletedAt: Option<real>, updatedAt: real)

  ghost predicate Unique<K, V>(t: seq<Row<K, V>>) {
    forall i, j :: 0 <= i < j < |t| ==> t[i].key != t[j].key
  }

  predicate Live<K, V>(r: Row<K, V>) {
    r.deletedAt.None?
  }

  function Find<K(==), V>(t: seq<Row<K, V>>, key: K): (found: Option<nat>)
    ensures found.Some? ==> found.value < |t| && t[found.value].key == key
    ensures found.None? ==> forall i :: 0 <= i < |t| ==> t[i].key != key
  {
    if t == [] then None
    else if t[|t| - 1].key == key then Some(|t| - 1)
    else Find(t[..|t| - 1], key)
  }

  /** What the live rows say. */
  ghost function Contents<K, V>(t: seq<Row<K, V>>): map<K, V> {
    if t == [] then map[]
    else
      var n := |t| - 1;
      var before := Contents(t[..n]);
      if Live(t[n]) then before[t[n].key := t[n].value] else before
  }

  lemma {:induction false} ContentsAt<K, V>(t: seq<Row<K, V>>, i: nat)
    requires Unique(t) && i < |t|
    ensures t[i].key in Contents(t) <==> Live(t[i])
    ensures Live(t[i]) ==> Contents(t)[t[i].key] == t[i].value
  {
    var n := |t| - 1;
    if i < n {
      ContentsAt(t[..n], i);
    } else {
      ContentsKeys(t[..n], t[n].key);
    }
  }

  lemma {:induction false} ContentsKeys<K, V>(t: seq<Row<K, V>>, key: K)
    ensures key in Contents(t) ==> exists i :: 0 <= i < |t| && t[i].key == key && Live(t[i])
  {
    if t != [] {
      var n := |t| - 1;
      ContentsKeys(t[..n], key);
      if key in Contents(t[..n]) {
        var i :| 0 <= i < n && t[..n][i].key == key && Live(t[..n][i]);
        assert t[i].key == key && Live(t[i]);
      }
    }
  }

  lemma ContentsAppend<K, V>(t: seq<Row<K, V>>, r: Row<K, V>)
    requires Find(t, r.key).None?
    ensures Unique(t) ==> Unique(t + [r])
    ensures Contents(t + [r]) == if Live(r) then Contents(t)[r.key := r.value] else Contents(t)
  {
    assert (t + [r])[..|t|] == t;
  }

  lemma {:induction false} ContentsUpdate<K, V>(t: seq<Row<K, V>>, i: nat, r: Row<K, V>)
    requires Unique(t) && i < |t| && r.key == t[i].key
    ensures Unique(t[i := r])
    ensures Contents(t[i := r]) == if Live(r) then Contents(t)[r.key := r.value] else Contents(t) - {r.key}
  {
    var n := |t| - 1;
    var t' := t[i := r];
    if i == n {
      assert t'[..n] == t[..n];
      ContentsKeys(t[..n], r.key);
    } else {
      assert t'[..n] == t[..n][i := r];
      ContentsUpdate(t[..n], i, r);
    }
  }

  /** Two tables that differ only in their update times. */
  ghost predicate SameButUpdates<K, V>(a: seq<Row<K, V>>, b: seq<Row<K, V>>) {
    |a| == |b| && forall i :: 0 <= i < |a| ==> a[i].(updatedAt := 0.0) == b[i].(updatedAt := 0.0)
  }

  lemma SameTwice<K, V>(a: seq<Row<K, V>>, b: seq<Row<K, V>>, c: seq<Row<K, V>>)
    requires SameButUpdates(a, b) && SameButUpdates(b, c)
    ensures SameButUpdates(a, c) && Contents(b) == Contents(c)
  {
    SameContents(b, c);
  }

  lemma {:induction false} SameContents<K, V>(a: seq<Row<K, V>>, b: seq<Row<K, V>>)
    requires SameButUpdates(a, b)
    ensures Contents(a) == Contents(b)
  {
    if a != [] {
      var n := |a| - 1;
      SameContents(a[..n], b[..n]);
      assert a[n].(updatedAt := 0.0) == b[n].(updatedAt := 0.0);
    }
  }
}
