/** The validator itself: one pass over identities, one over the fields of every row. */
module Validation {
  import opened Wrappers
  import opened Sorting
  import opened AppSpec
  import opened Records

  method ValidateRow(spec: Spec, scope: Scope, keys: set<Key>, row: RawRecord) returns (r: Option<RawRecord>)
    requires row.scope == scope && FindTable(spec.tables, row.table).Some?
    ensures r == if RowOk(spec, scope, keys, row) then Some(Normal(spec, row)) else None
  {
    var table := FindTable(spec.tables, row.table).value;
    if exists f :: f in row.values && !KnownField(table.fields, f) {
      return None;
    }
    var values: Values := map[];
    for i := 0 to |table.fields|
      invariant forall j :: 0 <= j < i ==>
                  FieldOk(spec, scope, keys, table.id, table.fields[j], Get(row.values, table.fields[j].id))
      invariant values == NormalValues(table.fields[..i], row.values)
    {
      var field := table.fields[i];
      var value := Get(row.values, field.id);
      if !FieldOk(spec, scope, keys, table.id, field, value) {
        return None;
      }
      assert table.fields[..i + 1][..i] == table.fields[..i];
      NormalValuesStep(table.fields, row.values, i);
      values := values[field.id := value];
    }
    assert table.fields[..|table.fields|] == table.fields;
    r := Some(row.(values := values));
  }

  lemma NormalValuesStep(fields: seq<Field>, values: Values, i: nat)
    requires i < |fields|
    ensures NormalValues(fields[..i + 1], values) == NormalValues(fields[..i], values)[fields[i].id := Get(values, fields[i].id)]
  {
    var a, b := NormalValues(fields[..i + 1], values), NormalValues(fields[..i], values)[fields[i].id := Get(values, fields[i].id)];
    forall f
      ensures f in a <==> f in b
    {
      if f in a {
        var j :| 0 <= j < i + 1 && fields[..i + 1][j].id == f;
        assert j < i ==> fields[..i][j].id == f;
      }
      if f in b && f != fields[i].id {
        var j :| 0 <= j < i && fields[..i][j].id == f;
        assert fields[..i + 1][j].id == f;
      }
    }
    assert a.Keys == b.Keys;
  }

  /** The first pass: scope, table and identity of every row. */
  method CollectIdentities(spec: Spec, scope: Scope, sorted: seq<RawRecord>) returns (r: Option<set<Key>>)
    ensures r == if DistinctKeys(RecordKey, sorted) && KnownRows(spec, scope, sorted) then Some(KeysOf(sorted)) else None
  {
    hide KeysOf;
    var identities: set<Key> := {};
    assert sorted[..0] == [] && KeysOf([]) == {} by { NoKeys(); }
    for i := 0 to |sorted|
      invariant identities == KeysOf(sorted[..i])
      invariant DistinctKeys(RecordKey, sorted[..i])
      invariant KnownRows(spec, scope, sorted[..i])
    {
      var row := sorted[i];
      KeysOfStep(sorted, i);
      if row.scope != scope || FindTable(spec.tables, row.table).None? {
        return None;
      }
      if RecordKey(row) in identities {
        RepeatedKey(sorted, i);
        return None;
      }
      NewKey(sorted, i);
      identities := identities + {RecordKey(row)};
    }
    assert sorted[..|sorted|] == sorted;
    r := Some(identities);
  }

  predicate KnownRows(spec: Spec, scope: Scope, rows: seq<RawRecord>) {
    forall j :: 0 <= j < |rows| ==> rows[j].scope == scope && FindTable(spec.tables, rows[j].table).Some?
  }


  lemma RepeatedKey(rows: seq<RawRecord>, i: nat)
    requires i < |rows| && RecordKey(rows[i]) in KeysOf(rows[..i])
    ensures !DistinctKeys(RecordKey, rows)
  {
    var j :| 0 <= j < i && RecordKey(rows[..i][j]) == RecordKey(rows[i]);
    assert RecordKey(rows[j]) == RecordKey(rows[i]);
  }

  lemma NewKey(rows: seq<RawRecord>, i: nat)
    requires i < |rows| && RecordKey(rows[i]) !in KeysOf(rows[..i]) && DistinctKeys(RecordKey, rows[..i])
    ensures DistinctKeys(RecordKey, rows[..i + 1])
  {
    var next, front := rows[..i + 1], rows[..i];
    assert next[..i] == front;
    forall j | 0 <= j < i
      ensures RecordKey(next[j]) != RecordKey(next[i])
    {
      assert RecordKey(front[j]) in KeysOf(front);
    }
  }

  /** `validate_records`. */
  method ValidateRecords(spec: Spec, scope: Scope, rows: seq<RawRecord>) returns (r: Option<seq<RawRecord>>)
    ensures r == Validate(spec, scope, rows)
  {
    hide RowOk, Fits, Sort, DistinctKeys, KeysOf;
    if scope.app != spec.app || |rows| > MAX_RECORDS || !Fits(rows) {
      return None;
    }
    var sorted := Sort(RecordKey, rows);
    SortPermutes(RecordKey, rows);
    SameElements(rows, sorted);
    ValidGraphFrom(spec, scope, rows, sorted);
    var collected := CollectIdentities(spec, scope, sorted);
    match collected {
      case None => return None;
      case Some(identities) =>
        var checked: seq<RawRecord> := [];
        for i := 0 to |sorted|
          invariant |checked| == i
          invariant forall j :: 0 <= j < i ==> RowOk(spec, scope, identities, sorted[j]) && checked[j] == Normal(spec, sorted[j])
        {
          var row := ValidateRow(spec, scope, identities, sorted[i]);
          match row {
            case None =>
              return None;
            case Some(normal) =>
              checked := checked + [normal];
          }
        }
        assert checked == NormalRows(spec, sorted);
        if !Fits(checked) {
          return None;
        }
        r := Some(checked);
    }
  }

  /** The sorted rows form a valid graph exactly when the rows do, and then all of them are known. */
  lemma ValidGraphFrom(spec: Spec, scope: Scope, rows: seq<RawRecord>, sorted: seq<RawRecord>)
    requires multiset(rows) == multiset(sorted)
    ensures ValidGraph(spec, scope, rows) <==> ValidGraph(spec, scope, sorted)
    ensures ValidGraph(spec, scope, sorted) ==> KnownRows(spec, scope, sorted)
  {
    if ValidGraph(spec, scope, rows) { ValidGraphPermutes(spec, scope, rows, sorted); }
    if ValidGraph(spec, scope, sorted) {
      ValidGraphPermutes(spec, scope, sorted, rows);
      forall j | 0 <= j < |sorted|
        ensures sorted[j].scope == scope && FindTable(spec.tables, sorted[j].table).Some?
      {
        assert RowOk(spec, scope, KeysOf(sorted), sorted[j]);
      }
    }
  }
}
