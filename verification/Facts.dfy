/**
 Facts under edit: the ordered map from row identities to rows that a batch works on, its listing
 in canonical order, and how the encoded size of a listing grows with its rows.
 */
module Facts {
  import opened Wrappers
  import opened Sorting
  import opened AppSpec
  import opened Decimals
  import opened Records

  type FactMap = map<Key, RawRecord>

  /** Every row is filed under its own identity. */
  ghost predicate Keyed(m: FactMap) {
    forall k :: k in m ==> RecordKey(m[k]) == k
  }

  lemma {:induction false} LeastKeyExists(keys: set<Key>)
    requires keys != {}
    ensures exists k :: k in keys && forall j :: j in keys ==> KeyLeq(k, j)
  {
    var x := SomeElement(keys);
    if keys == {x} {
      assert x in keys && forall j :: j in keys ==> KeyLeq(x, j);
    } else {
      assert keys - {x} != {};
      LeastKeyExists(keys - {x});
      var m :| m in keys - {x} && forall j :: j in keys - {x} ==> KeyLeq(m, j);
      var least := if KeyLeq(x, m) then x else m;
      assert forall j :: j in keys ==> j == x || j in keys - {x};
      assert least in keys && forall j :: j in keys ==> KeyLeq(least, j);
    }
  }

  function LeastKey(keys: set<Key>): (k: Key)
    requires keys != {}
    ensures k in keys && forall j :: j in keys ==> KeyLeq(k, j)
  {
    LeastKeyExists(keys);
    var k :| k in keys && forall j :: j in keys ==> KeyLeq(k, j);
    k
  }

  function Listing(keys: set<Key>, m: FactMap): seq<RawRecord>
    requires keys <= m.Keys
    decreases |keys|
  {
    if keys == {} then []
    else
      var k := LeastKey(keys);
      [m[k]] + Listing(keys - {k}, m)
  }

  /** The rows in identity order, as an ordered map yields them. */
  function RowsOf(m: FactMap): seq<RawRecord> {
    Listing(m.Keys, m)
  }

  function AsMap(rows: seq<RawRecord>): FactMap {
    if rows == [] then map[]
    else
      var r := rows[|rows| - 1];
      AsMap(rows[..|rows| - 1])[RecordKey(r) := r]
  }

  lemma {:induction false} ListingRows(keys: set<Key>, m: FactMap)
    requires keys <= m.Keys && Keyed(m)
    ensures StrictlySorted(RecordKey, Listing(keys, m))
    ensures forall i :: 0 <= i < |Listing(keys, m)| ==>
              RecordKey(Listing(keys, m)[i]) in keys && m[RecordKey(Listing(keys, m)[i])] == Listing(keys, m)[i]
    ensures forall k :: k in keys ==> m[k] in Listing(keys, m)
    decreases |keys|
  {
    if keys != {} {
      var k := LeastKey(keys);
      var rest := Listing(keys - {k}, m);
      ListingRows(keys - {k}, m);
      assert Listing(keys, m) == [m[k]] + rest;
      PrependRow(m[k], rest);
      assert forall j :: j in keys ==> j == k || j in keys - {k};
    }
  }

  lemma PrependRow(r: RawRecord, rest: seq<RawRecord>)
    requires StrictlySorted(RecordKey, rest)
    requires forall j :: 0 <= j < |rest| ==> KeyLeq(RecordKey(r), RecordKey(rest[j])) && RecordKey(r) != RecordKey(rest[j])
    ensures StrictlySorted(RecordKey, [r] + rest)
  {
  }

  lemma RowsOfKeys(m: FactMap)
    requires Keyed(m)
    ensures KeysOf(RowsOf(m)) == m.Keys
  {
    ListingRows(m.Keys, m);
    forall k
      ensures k in KeysOf(RowsOf(m)) <==> k in m
    {
      if k in m {
        assert m[k] in RowsOf(m);
        var i :| 0 <= i < |RowsOf(m)| && RowsOf(m)[i] == m[k];
        assert RecordKey(RowsOf(m)[i]) == k;
      }
    }
  }

  lemma {:induction false} AsMapRows(rows: seq<RawRecord>)
    ensures Keyed(AsMap(rows)) && AsMap(rows).Keys == KeysOf(rows)
    ensures DistinctKeys(RecordKey, rows) ==>
              forall i :: 0 <= i < |rows| ==> AsMap(rows)[RecordKey(rows[i])] == rows[i]
  {
    hide KeysOf;
    if rows == [] {
      NoKeys();
    } else {
      var n := |rows| - 1;
      var front := rows[..n];
      AsMapRows(front);
      KeysOfStep(rows, n);
      assert rows[..n + 1] == rows;
      if DistinctKeys(RecordKey, rows) {
        assert DistinctKeys(RecordKey, front);
        forall i | 0 <= i < |rows|
          ensures RecordKey(rows[i]) in AsMap(rows)
        {
          RowKeyIn(rows, i);
        }
        forall i | 0 <= i < |rows|
          ensures AsMap(rows)[RecordKey(rows[i])] == rows[i]
        {
          if i < n {
            assert front[i] == rows[i];
            RowKeyIn(front, i);
          }
        }
      }
    }
  }

  lemma RowKeyIn(rows: seq<RawRecord>, i: nat)
    requires i < |rows|
    ensures RecordKey(rows[i]) in KeysOf(rows)
  {
  }

  /** Checked facts are the listing of their own map. */
  lemma RowsOfMap(rows: seq<RawRecord>)
    requires StrictlySorted(RecordKey, rows)
    ensures RowsOf(AsMap(rows)) == rows
  {
    assert DistinctKeys(RecordKey, rows);
    AsMapRows(rows);
    var m := AsMap(rows);
    ListingRows(m.Keys, m);
    SameListing(RowsOf(m), rows);
  }

  lemma HeadNotInTail(s: seq<RawRecord>)
    requires StrictlySorted(RecordKey, s) && s != []
    ensures s[0] !in s[1..]
  {
    forall k | 1 <= k < |s|
      ensures s[k] != s[0]
    {
      assert KeyLess(RecordKey(s[0]), RecordKey(s[k]));
    }
  }

  /** A strictly ordered list is determined by its elements. */
  lemma {:induction false} SameListing(s: seq<RawRecord>, t: seq<RawRecord>)
    requires StrictlySorted(RecordKey, s) && StrictlySorted(RecordKey, t)
    requires forall r :: r in s <==> r in t
    ensures s == t
  {
    assert s != [] ==> s[0] in t;
    assert t != [] ==> t[0] in s;
    if s != [] {
      SortedHead(RecordKey, s, t);
      HeadNotInTail(s);
      HeadNotInTail(t);
      forall r
        ensures r in s[1..] <==> r in t[1..]
      {
        assert r in s <==> r == s[0] || r in s[1..];
        assert r in t <==> r == t[0] || r in t[1..];
      }
      SameListing(s[1..], t[1..]);
    }
  }

  lemma {:induction false} AsMapIn(rows: seq<RawRecord>, k: Key)
    requires k in AsMap(rows)
    ensures AsMap(rows)[k] in rows
  {
    if rows != [] && k != RecordKey(rows[|rows| - 1]) {
      AsMapIn(rows[..|rows| - 1], k);
    }
  }

  lemma SortedIsListing(rows: seq<RawRecord>)
    requires DistinctKeys(RecordKey, rows)
    ensures Sort(RecordKey, rows) == RowsOf(AsMap(rows))
  {
    hide Listing, Sort;
    var m := AsMap(rows);
    AsMapRows(rows);
    SortPermutes(RecordKey, rows);
    SortStrict(RecordKey, rows);
    SameElements(Sort(RecordKey, rows), rows);
    ListingRows(m.Keys, m);
    forall r
      ensures r in RowsOf(m) <==> r in rows
    {
      if r in RowsOf(m) {
        AsMapIn(rows, RecordKey(r));
      }
      if r in rows {
        var i :| 0 <= i < |rows| && rows[i] == r;
        assert m[RecordKey(rows[i])] == r;
        assert RecordKey(rows[i]) in KeysOf(rows);
      }
    }
    SameListing(Sort(RecordKey, rows), RowsOf(m));
  }

  // ------------------------------------------------------------ the graph of a map

  ghost predicate GraphOk(spec: Spec, scope: Scope, m: FactMap) {
    forall k :: k in m ==> RowOk(spec, scope, m.Keys, m[k])
  }

  function NormalFacts(spec: Spec, m: FactMap): FactMap {
    map k | k in m :: Normal(spec, m[k])
  }

  lemma {:induction false} NormalListing(spec: Spec, keys: set<Key>, m: FactMap)
    requires keys <= m.Keys
    ensures NormalRows(spec, Listing(keys, m)) == Listing(keys, NormalFacts(spec, m))
    decreases |keys|
  {
    if keys != {} {
      var k := LeastKey(keys);
      NormalListing(spec, keys - {k}, m);
      var l := Listing(keys, m);
      assert l[1..] == Listing(keys - {k}, m);
      assert NormalRows(spec, l) == [Normal(spec, l[0])] + NormalRows(spec, l[1..]);
    }
  }

  /** What validation asks of the listing of a map, said of the map. */
  lemma RowsOfValid(spec: Spec, scope: Scope, m: FactMap)
    requires Keyed(m)
    ensures Canonical(spec, RowsOf(m)) == RowsOf(NormalFacts(spec, m))
    ensures ValidRows(spec, scope, RowsOf(m)) <==>
              (&& scope.app == spec.app && |RowsOf(m)| <= MAX_RECORDS && GraphOk(spec, scope, m)
               && Fits(RowsOf(m)) && Fits(RowsOf(NormalFacts(spec, m))))
  {
    hide RowOk, Fits, Listing, LeastKey, KeysOf, Sort;
    var rows := RowsOf(m);
    ListingRows(m.Keys, m);
    RowsOfKeys(m);
    SortFixed(RecordKey, rows);
    assert NormalFacts(spec, m).Keys == m.Keys;
    NormalListing(spec, m.Keys, m);
    assert DistinctKeys(RecordKey, rows);
    if GraphOk(spec, scope, m) {
      forall i | 0 <= i < |rows|
        ensures RowOk(spec, scope, KeysOf(rows), rows[i])
      {
        assert RecordKey(rows[i]) in m;
      }
    }
    if ValidGraph(spec, scope, rows) {
      forall k | k in m
        ensures RowOk(spec, scope, m.Keys, m[k])
      {
        var i :| 0 <= i < |rows| && rows[i] == m[k];
      }
    }
  }

  // ------------------------------------------------------------ growth of the encoded size

  lemma {:induction false} EntriesGrow(small: set<FieldId>, v: Values, large: set<FieldId>, w: Values)
    requires small <= v.Keys && large <= w.Keys && small <= large
    requires forall f :: f in small ==> ValueBytes(v[f]) <= ValueBytes(w[f]) && ValueNodes(v[f]) <= ValueNodes(w[f])
    ensures EntriesBytes(small, v) <= EntriesBytes(large, w)
    ensures EntriesNodes(small, v) <= EntriesNodes(large, w)
    decreases |large|
  {
    if large != {} {
      var f := Smallest(large);
      if f in small {
        assert Smallest(small) == f;
        EntriesGrow(small - {f}, v, large - {f}, w);
      } else {
        EntriesGrow(small, v, large - {f}, w);
      }
    } else {
      assert small == {};
    }
  }

  lemma RecordGrows(r: RawRecord, q: RawRecord)
    requires r.scope == q.scope && r.id == q.id && r.table == q.table
    requires r.values.Keys <= q.values.Keys
    requires forall f :: f in r.values ==>
               ValueBytes(r.values[f]) <= ValueBytes(q.values[f]) && ValueNodes(r.values[f]) <= ValueNodes(q.values[f])
    ensures RecordBytes(r) <= RecordBytes(q) && RecordNodes(r) <= RecordNodes(q)
  {
    EntriesGrow(r.values.Keys, r.values, q.values.Keys, q.values);
  }

  lemma {:induction false} ListingGrows(small: set<Key>, m: FactMap, large: set<Key>, n: FactMap)
    requires small <= m.Keys && large <= n.Keys && small <= large
    requires forall k :: k in small ==> RecordBytes(m[k]) <= RecordBytes(n[k]) && RecordNodes(m[k]) <= RecordNodes(n[k])
    ensures RowsBytes(Listing(small, m)) <= RowsBytes(Listing(large, n))
    ensures RowsNodes(Listing(small, m)) <= RowsNodes(Listing(large, n))
    decreases |large|
  {
    hide RecordBytes, RecordNodes;
    if large != {} {
      var k := LeastKey(large);
      assert Listing(large, n)[1..] == Listing(large - {k}, n);
      if k in small {
        assert LeastKey(small) == k by {
          assert KeyLeq(k, LeastKey(small)) && KeyLeq(LeastKey(small), k);
        }
        assert Listing(small, m)[1..] == Listing(small - {k}, m);
        ListingGrows(small - {k}, m, large - {k}, n);
      } else {
        ListingGrows(small, m, large - {k}, n);
      }
    } else {
      assert small == {};
    }
  }

  lemma {:induction false} ListingLength(keys: set<Key>, m: FactMap)
    requires keys <= m.Keys
    ensures |Listing(keys, m)| == |keys|
    decreases |keys|
  {
    if keys != {} {
      ListingLength(keys - {LeastKey(keys)}, m);
    }
  }
}
