/**
 Validity of facts in plain terms: which rows, values and references make a graph valid, said of the
 lists themselves by membership, with none of the validator's own helpers. The validator accepts
 exactly these graphs.
 */
module PlainFacts {
  import opened Wrappers
  import opened Sorting
  import opened AppSpec
  import opened Records

  /** Table `table` declares field `f`. */
  ghost predicate Declares(spec: Spec, table: TableId, f: Field) {
    exists t :: t in spec.tables && t.id == table && f in t.fields
  }

  /** Some row of `table` has identity `id`. */
  predicate HasRow(rows: seq<RawRecord>, table: TableId, id: RecordId) {
    exists i :: 0 <= i < |rows| && rows[i].table == table && rows[i].id == id
  }

  /** A present value is of its declared type, within the text limit, and a reference resolves in the right table of this scope. */
  predicate OfType(scope: Scope, rows: seq<RawRecord>, t: FieldType, v: Value) {
    match t
    case TextType => v.Text? && TextBytes(v.text) <= 16_384
    case IntegerType => v.Integer?
    case BoolType => v.Bool?
    case MoneyType => v.Money?
    case RefType(target) => v.Ref? && v.ref.scope == scope && v.ref.table == target && HasRow(rows, target, v.ref.record)
  }

  /** A present value obeys a declared constraint. */
  predicate Obeys(c: Constraint, v: Value) {
    match c
    case NonEmpty => v.Text? && exists i :: 0 <= i < |v.text| && !IsWhitespace(v.text[i])
    case TextLength(lo, hi) => v.Text? && lo <= |v.text| && |v.text| <= hi
    case NumericRange(lo, hi) => (v.Integer? && lo <= v.integer && v.integer <= hi) || (v.Money? && lo <= v.money && v.money <= hi)
  }

  predicate Present(values: Values, field: FieldId) {
    field in values && values[field] != Blank && values[field] != Null
  }

  /** Two rows hold the same in a field, or neither holds anything. */
  predicate SameEntry(a: Values, b: Values, field: FieldId) {
    (field in a <==> field in b) && (field in a && field in b ==> a[field] == b[field])
  }

  /** What a row holds in a declared field: something if it is required, and if something, then of the type and within the rules. */
  ghost predicate FieldHolds(spec: Spec, scope: Scope, rows: seq<RawRecord>, r: RawRecord, f: Field) {
    && (f.required ==> Present(r.values, f.id))
    && (Present(r.values, f.id) ==> OfType(scope, rows, f.fieldType, r.values[f.id]))
    && (forall c :: c in spec.constraints && c.table == r.table && c.field == f.id && Present(r.values, f.id)
          ==> Obeys(c.constraint, r.values[f.id]))
    && (forall m :: m in spec.machines && m.table == r.table && m.stateField == f.id
          ==> f.id in r.values && r.values[f.id].Text? && r.values[f.id].text in m.states)
  }

  ghost predicate RowHolds(spec: Spec, scope: Scope, rows: seq<RawRecord>, r: RawRecord) {
    && r.scope == scope
    && (exists t :: t in spec.tables && t.id == r.table)
    && (forall k :: k in r.values ==> exists f :: Declares(spec, r.table, f) && f.id == k)
    && (forall f :: Declares(spec, r.table, f) ==> FieldHolds(spec, scope, rows, r, f))
  }

  ghost predicate GraphHolds(spec: Spec, scope: Scope, rows: seq<RawRecord>) {
    && (forall i, j :: 0 <= i < j < |rows| ==> rows[i].table != rows[j].table || rows[i].id != rows[j].id)
    && (forall r :: r in rows ==> RowHolds(spec, scope, rows, r))
  }

  // ------------------------------------------------------------ lookups find what is declared

  lemma TableHeld(spec: Spec, t: Table)
    requires TablesFit(spec.tables) && t in spec.tables
    ensures FindTable(spec.tables, t.id) == Some(t)
  {
    hide FieldCount;
    var r := FindTable(spec.tables, t.id);
    var i :| 0 <= i < |spec.tables| && spec.tables[i] == t;
    var j :| 0 <= j < |spec.tables| && spec.tables[j] == r.value;
    assert TableKey(spec.tables[i]) == TableKey(spec.tables[j]);
  }

  lemma FieldHeld(spec: Spec, table: TableId, f: Field)
    requires TablesFit(spec.tables)
    ensures Declares(spec, table, f) <==> FieldOf(spec, table, f.id) == Some(f)
    ensures Declares(spec, table, f) ==> FindTable(spec.tables, table).Some? && f in FindTable(spec.tables, table).value.fields
  {
    hide FieldCount;
    if Declares(spec, table, f) {
      var t :| t in spec.tables && t.id == table && f in t.fields;
      TableHeld(spec, t);
      var r := FindField(t.fields, f.id);
      var i :| 0 <= i < |t.fields| && t.fields[i] == f;
      var j :| 0 <= j < |t.fields| && t.fields[j] == r.value;
      assert FieldKey(t.fields[i]) == FieldKey(t.fields[j]);
    }
  }

  lemma TableFound(spec: Spec, t: Table)
    requires Checked(spec) && t in spec.tables
    ensures FindTable(spec.tables, t.id) == Some(t)
  {
    hide TablesFit, FindTable;
    TableHeld(spec, t);
  }

  lemma FieldFound(spec: Spec, table: TableId, f: Field)
    requires Checked(spec)
    ensures Declares(spec, table, f) <==> FieldOf(spec, table, f.id) == Some(f)
    ensures Declares(spec, table, f) ==> FindTable(spec.tables, table).Some? && f in FindTable(spec.tables, table).value.fields
  {
    hide TablesFit, FindTable, FieldOf, Declares;
    FieldHeld(spec, table, f);
  }

  // ------------------------------------------------------------ the validator's helpers mean the same

  lemma KeyOfRow(rows: seq<RawRecord>, table: TableId, id: RecordId)
    ensures Key(table, id) in KeysOf(rows) <==> HasRow(rows, table, id)
  {
    if HasRow(rows, table, id) {
      var i :| 0 <= i < |rows| && rows[i].table == table && rows[i].id == id;
      assert RecordKey(rows[i]) == Key(table, id);
    }
  }

  lemma TypeMeans(scope: Scope, rows: seq<RawRecord>, t: FieldType, v: Value)
    ensures TypeAccepts(scope, KeysOf(rows), t, v) <==> v == Blank || v == Null || OfType(scope, rows, t, v)
  {
    if v.Ref? {
      KeyOfRow(rows, v.ref.table, v.ref.record);
    }
  }

  lemma RuleMeans(c: Constraint, v: Value)
    ensures Accepts(c, v) <==> v == Blank || v == Null || Obeys(c, v)
  {
  }

  lemma ConstraintsMean(spec: Spec, table: TableId, field: FieldId, v: Value)
    ensures ConstraintsAccept(spec, table, field, v) <==>
              forall c :: c in spec.constraints && c.table == table && c.field == field ==> v == Blank || v == Null || Obeys(c.constraint, v)
  {
    hide Accepts, Obeys;
    forall i | 0 <= i < |spec.constraints|
      ensures Accepts(spec.constraints[i].constraint, v) <==> v == Blank || v == Null || Obeys(spec.constraints[i].constraint, v)
    {
      RuleMeans(spec.constraints[i].constraint, v);
    }
    if ConstraintsAccept(spec, table, field, v) {
      forall c | c in spec.constraints && c.table == table && c.field == field
        ensures v == Blank || v == Null || Obeys(c.constraint, v)
      {
        var i :| 0 <= i < |spec.constraints| && spec.constraints[i] == c;
      }
    }
    if forall c :: c in spec.constraints && c.table == table && c.field == field ==> v == Blank || v == Null || Obeys(c.constraint, v) {
      forall i | 0 <= i < |spec.constraints| && spec.constraints[i].table == table && spec.constraints[i].field == field
        ensures Accepts(spec.constraints[i].constraint, v)
      {
        assert spec.constraints[i] in spec.constraints;
      }
    }
  }

  lemma MachinesMean(spec: Spec, table: TableId, field: FieldId, v: Value)
    ensures MachinesAccept(spec, table, field, v) <==>
              forall m :: m in spec.machines && m.table == table && m.stateField == field ==> v.Text? && v.text in m.states
  {
    if MachinesAccept(spec, table, field, v) {
      forall m | m in spec.machines && m.table == table && m.stateField == field
        ensures v.Text? && v.text in m.states
      {
        var i :| 0 <= i < |spec.machines| && spec.machines[i] == m;
      }
    }
  }

  lemma FieldMeans(spec: Spec, scope: Scope, rows: seq<RawRecord>, r: RawRecord, f: Field)
    ensures FieldOk(spec, scope, KeysOf(rows), r.table, f, Get(r.values, f.id)) <==> FieldHolds(spec, scope, rows, r, f)
  {
    hide TypeAccepts, OfType, ConstraintsAccept, MachinesAccept, Obeys, KeysOf;
    var v := Get(r.values, f.id);
    TypeMeans(scope, rows, f.fieldType, v);
    ConstraintsMean(spec, r.table, f.id, v);
    MachinesMean(spec, r.table, f.id, v);
    assert Present(r.values, f.id) <==> v != Blank && v != Null;
  }

  lemma RowMeans(spec: Spec, scope: Scope, rows: seq<RawRecord>, r: RawRecord)
    requires Checked(spec)
    ensures RowOk(spec, scope, KeysOf(rows), r) <==> RowHolds(spec, scope, rows, r)
  {
    hide Checked, FieldOk, FieldHolds, KeysOf, FindTable, FieldOf;
    var found := FindTable(spec.tables, r.table);
    if exists t :: t in spec.tables && t.id == r.table {
      var t :| t in spec.tables && t.id == r.table;
      TableFound(spec, t);
      FieldsDeclared(spec, t);
      forall i | 0 <= i < |t.fields|
        ensures FieldOk(spec, scope, KeysOf(rows), t.id, t.fields[i], Get(r.values, t.fields[i].id))
                <==> FieldHolds(spec, scope, rows, r, t.fields[i])
      {
        FieldMeans(spec, scope, rows, r, t.fields[i]);
      }
      if RowOk(spec, scope, KeysOf(rows), r) {
        forall k | k in r.values
          ensures exists f :: Declares(spec, r.table, f) && f.id == k
        {
          assert KnownField(t.fields, k);
          var i :| 0 <= i < |t.fields| && t.fields[i].id == k;
          assert t.fields[i] in t.fields;
        }
        forall f | Declares(spec, r.table, f)
          ensures FieldHolds(spec, scope, rows, r, f)
        {
          var i :| 0 <= i < |t.fields| && t.fields[i] == f;
        }
      }
      if RowHolds(spec, scope, rows, r) {
        forall k | k in r.values
          ensures KnownField(t.fields, k)
        {
          var f :| Declares(spec, r.table, f) && f.id == k;
          var i :| 0 <= i < |t.fields| && t.fields[i] == f;
        }
        forall i | 0 <= i < |t.fields|
          ensures FieldHolds(spec, scope, rows, r, t.fields[i])
        {
          assert t.fields[i] in t.fields;
        }
      }
    }
  }

  lemma FieldsDeclared(spec: Spec, t: Table)
    requires Checked(spec) && t in spec.tables
    ensures forall f :: Declares(spec, t.id, f) <==> f in t.fields
  {
    hide Checked;
    TableFound(spec, t);
    forall f | Declares(spec, t.id, f)
      ensures f in t.fields
    {
      FieldFound(spec, t.id, f);
    }
  }

  lemma GraphMeans(spec: Spec, scope: Scope, rows: seq<RawRecord>)
    requires Checked(spec)
    ensures ValidGraph(spec, scope, rows) <==> GraphHolds(spec, scope, rows)
  {
    hide Checked, RowOk, RowHolds, KeysOf;
    forall i | 0 <= i < |rows|
      ensures RowOk(spec, scope, KeysOf(rows), rows[i]) <==> RowHolds(spec, scope, rows, rows[i])
    {
      RowMeans(spec, scope, rows, rows[i]);
    }
    forall i, j | 0 <= i < j < |rows|
      ensures RecordKey(rows[i]) != RecordKey(rows[j]) <==> rows[i].table != rows[j].table || rows[i].id != rows[j].id
    {
    }
    if GraphHolds(spec, scope, rows) {
      forall i | 0 <= i < |rows|
        ensures RowHolds(spec, scope, rows, rows[i])
      {
        assert rows[i] in rows;
      }
    }
  }

  /** The encoded rows stay within one mebibyte and twenty thousand nodes. */
  predicate Carried(rows: seq<RawRecord>) {
    RowsBytes(rows) <= 1_048_576 && RowsNodes(rows) <= 20_000
  }

  /** The graph is of this application, holds, and can be carried as it came and in published form. */
  ghost predicate Publishable(spec: Spec, scope: Scope, rows: seq<RawRecord>) {
    scope.app == spec.app && |rows| <= 4_096 && GraphHolds(spec, scope, rows) && Carried(rows) && Carried(Canonical(spec, rows))
  }

  /** The validator publishes facts exactly for the graphs that hold in plain terms and can be carried. */
  lemma ValidateExactly(spec: Spec, scope: Scope, rows: seq<RawRecord>)
    requires Checked(spec)
    ensures Validate(spec, scope, rows).Some? <==> Publishable(spec, scope, rows)
  {
    hide Checked, ValidGraph, GraphHolds, Canonical;
    GraphMeans(spec, scope, rows);
  }

  // ------------------------------------------------------------ what is published

  /** `q` is `r` with every declared field filled in: as it was given, or blank. */
  ghost predicate Completes(spec: Spec, r: RawRecord, q: RawRecord) {
    && q.scope == r.scope && q.table == r.table && q.id == r.id
    && (forall k :: k in q.values <==> exists f :: Declares(spec, r.table, f) && f.id == k)
    && (forall k :: k in q.values ==> q.values[k] == if k in r.values then r.values[k] else Blank)
  }

  /** Published rows ascend by table and record, and are the given rows, each completed. */
  lemma PublishedRows(spec: Spec, rows: seq<RawRecord>)
    requires Checked(spec) && DistinctKeys(RecordKey, rows)
    requires forall r :: r in rows ==> exists t :: t in spec.tables && t.id == r.table
    ensures var out := Canonical(spec, rows);
            && |out| == |rows|
            && (forall i, j :: 0 <= i < j < |out| ==> out[i].table < out[j].table || (out[i].table == out[j].table && out[i].id < out[j].id))
            && (forall r :: r in rows ==> exists q :: q in out && Completes(spec, r, q))
            && (forall q :: q in out ==> exists r :: r in rows && Completes(spec, r, q))
  {
    hide Checked, Normal, Completes, Sort, Canonical, StrictlySorted, DistinctKeys;
    var s := Sort(RecordKey, rows);
    var out := Canonical(spec, rows);
    SortPermutes(RecordKey, rows);
    SameElements(s, rows);
    PublishedAscend(spec, rows);
    forall i | 0 <= i < |s|
      ensures Completes(spec, s[i], out[i])
    {
      assert s[i] in rows;
      NormalCompletes(spec, s[i]);
    }
    forall r | r in rows
      ensures exists q :: q in out && Completes(spec, r, q)
    {
      var i :| 0 <= i < |s| && s[i] == r;
      assert out[i] in out;
    }
    forall q | q in out
      ensures exists r :: r in rows && Completes(spec, r, q)
    {
      var i :| 0 <= i < |out| && out[i] == q;
      assert s[i] in rows;
    }
  }

  lemma PublishedAscend(spec: Spec, rows: seq<RawRecord>)
    requires DistinctKeys(RecordKey, rows)
    ensures var s, out := Sort(RecordKey, rows), Canonical(spec, rows);
            && |out| == |s| && (forall i :: 0 <= i < |s| ==> out[i] == Normal(spec, s[i]))
            && (forall i, j :: 0 <= i < j < |out| ==> out[i].table < out[j].table || (out[i].table == out[j].table && out[i].id < out[j].id))
  {
    hide Sort, Normal;
    var s, out := Sort(RecordKey, rows), Canonical(spec, rows);
    SortStrict(RecordKey, rows);
    NormalRowsKeys(spec, s);
    forall i, j | 0 <= i < j < |out|
      ensures KeyLess(RecordKey(out[i]), RecordKey(out[j]))
    {
      assert RecordKey(out[i]) == RecordKey(s[i]) && RecordKey(out[j]) == RecordKey(s[j]);
    }
  }

  lemma NormalCompletes(spec: Spec, r: RawRecord)
    requires Checked(spec) && exists t :: t in spec.tables && t.id == r.table
    ensures Completes(spec, r, Normal(spec, r))
  {
    hide Checked;
    var t :| t in spec.tables && t.id == r.table;
    TableFound(spec, t);
    FieldsDeclared(spec, t);
    NormalValuesOf(t.fields, r.values);
    var q := Normal(spec, r);
    forall k
      ensures k in q.values <==> exists f :: Declares(spec, r.table, f) && f.id == k
      ensures k in q.values ==> q.values[k] == if k in r.values then r.values[k] else Blank
    {
      if k in q.values {
        var i :| 0 <= i < |t.fields| && t.fields[i].id == k;
        assert t.fields[i] in t.fields;
      }
      if exists f :: Declares(spec, r.table, f) && f.id == k {
        var f :| Declares(spec, r.table, f) && f.id == k;
        var i :| 0 <= i < |t.fields| && t.fields[i] == f;
      }
    }
  }

  // ------------------------------------------------------------ required fields

  /** No row of a checked store leaves a required field blank, null or out. */
  lemma RequiredHeld(spec: Spec, scope: Scope, rows: seq<RawRecord>, r: RawRecord, f: Field)
    requires Checked(spec) && CheckedRecords(spec, scope, rows) && r in rows && Declares(spec, r.table, f) && f.required
    ensures f.id in r.values && r.values[f.id] != Blank && r.values[f.id] != Null
  {
    hide Checked, Fits, RowOk, NormalRows;
    GraphMeans(spec, scope, rows);
    assert RowHolds(spec, scope, rows, r);
    assert FieldHolds(spec, scope, rows, r, f);
  }

  /** A row that leaves a required field blank, null or out is never published, whatever else comes with it. */
  lemma MissingRequiredRejected(spec: Spec, scope: Scope, rows: seq<RawRecord>, r: RawRecord, f: Field)
    requires Checked(spec) && r in rows && Declares(spec, r.table, f) && f.required
    requires f.id !in r.values || r.values[f.id] == Blank || r.values[f.id] == Null
    ensures Validate(spec, scope, rows) == None
  {
    hide Checked, Fits, RowOk, NormalRows;
    GraphMeans(spec, scope, rows);
    assert !FieldHolds(spec, scope, rows, r, f);
    assert !RowHolds(spec, scope, rows, r);
  }
}
