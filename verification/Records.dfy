/**
 Final-state validation of facts: the entire candidate graph is judged at once, so the order in
 which rows arrive never decides whether a reference resolves.
 */
module Records {
  import opened Wrappers
  import opened Sorting
  import opened AppSpec
  import opened Decimals

  // ------------------------------------------------------------ encoded size

  function EscapedBytes(c: char): nat {
    if c == '\"' || c == '\\' || c as int in {8, 9, 10, 12, 13} then 2
    else if c as int < 32 then 6
    else CharBytes(c)
  }

  function JsonTextBytes(s: string): nat {
    if s == "" then 0 else EscapedBytes(s[0]) + JsonTextBytes(s[1..])
  }

  function IdBytes(id: int): nat {
    6 + |Decimal(id)|
  }

  /** Bytes of one value in the compact tagged encoding. */
  function ValueBytes(v: Value): nat {
    match v
    case Blank => 16
    case Null => 15
    case Text(s) => 27 + JsonTextBytes(s)
    case Integer(n) => 28 + |Decimal(n)|
    case Bool(b) => if b then 29 else 30
    case Money(n) => 26 + |Decimal(n)|
    case Ref(r) => 85 + IdBytes(r.scope.tenant) + IdBytes(r.scope.app) + IdBytes(r.table) + IdBytes(r.record)
  }

  /** Containers, strings (keys included) and scalars of one encoded value. */
  function ValueNodes(v: Value): nat {
    match v
    case Blank => 3
    case Null => 3
    case Ref(_) => 15
    case _ => 5
  }

  /** Bytes of the field entries `fields`, in identity order. */
  function EntriesBytes(fields: set<FieldId>, values: Values): nat
    requires fields <= values.Keys
    decreases |fields|
  {
    if fields == {} then 0
    else
      var f := Smallest(fields);
      IdBytes(f) + 2 + ValueBytes(values[f]) + EntriesBytes(fields - {f}, values)
  }

  function EntriesNodes(fields: set<FieldId>, values: Values): nat
    requires fields <= values.Keys
    decreases |fields|
  {
    if fields == {} then 0
    else
      var f := Smallest(fields);
      1 + ValueNodes(values[f]) + EntriesNodes(fields - {f}, values)
  }

  function RecordBytes(r: RawRecord): nat {
    80 + IdBytes(r.scope.tenant) + IdBytes(r.scope.app) + IdBytes(r.id) + IdBytes(r.table)
    + EntriesBytes(r.values.Keys, r.values)
  }

  function RecordNodes(r: RawRecord): nat {
    13 + EntriesNodes(r.values.Keys, r.values)
  }

  function RowsBytes(rows: seq<RawRecord>): nat {
    if rows == [] then 2 else RecordBytes(rows[0]) + 1 + RowsBytes(rows[1..])
  }

  function RowsNodes(rows: seq<RawRecord>): nat {
    if rows == [] then 1 else RecordNodes(rows[0]) + RowsNodes(rows[1..])
  }

  /** The encoder's byte limit and the node limit of the preflight that follows it. */
  predicate Fits(rows: seq<RawRecord>) {
    RowsBytes(rows) <= MAX_BYTES && RowsNodes(rows) <= MAX_NODES
  }

  // ------------------------------------------------------------ validity of one row in a graph

  function Get(values: Values, field: FieldId): Value {
    if field in values then values[field] else Blank
  }

  predicate TypeAccepts(scope: Scope, keys: set<Key>, t: FieldType, v: Value) {
    match v
    case Blank => true
    case Null => true
    case Text(s) => t.TextType? && TextBytes(s) <= MAX_TEXT_BYTES
    case Integer(_) => t.IntegerType?
    case Bool(_) => t.BoolType?
    case Money(_) => t.MoneyType?
    case Ref(r) => t.RefType? && r.scope == scope && r.table == t.target && Key(r.table, r.record) in keys
  }

  predicate ConstraintsAccept(spec: Spec, table: TableId, field: FieldId, v: Value) {
    forall i :: 0 <= i < |spec.constraints| && spec.constraints[i].table == table && spec.constraints[i].field == field
      ==> Accepts(spec.constraints[i].constraint, v)
  }

  predicate MachinesAccept(spec: Spec, table: TableId, field: FieldId, v: Value) {
    forall i :: 0 <= i < |spec.machines| && spec.machines[i].table == table && spec.machines[i].stateField == field
      ==> v.Text? && v.text in spec.machines[i].states
  }

  predicate FieldOk(spec: Spec, scope: Scope, keys: set<Key>, table: TableId, f: Field, v: Value) {
    && (Missing(v) ==> !f.required)
    && TypeAccepts(scope, keys, f.fieldType, v)
    && ConstraintsAccept(spec, table, f.id, v)
    && MachinesAccept(spec, table, f.id, v)
  }

  predicate KnownField(fields: seq<Field>, id: FieldId) {
    exists i :: 0 <= i < |fields| && fields[i].id == id
  }

  predicate FieldsOk(spec: Spec, scope: Scope, keys: set<Key>, t: Table, values: Values) {
    && (forall f :: f in values ==> KnownField(t.fields, f))
    && (forall i :: 0 <= i < |t.fields| ==>
          FieldOk(spec, scope, keys, t.id, t.fields[i], Get(values, t.fields[i].id)))
  }

  predicate RowOk(spec: Spec, scope: Scope, keys: set<Key>, r: RawRecord) {
    && r.scope == scope
    && var t := FindTable(spec.tables, r.table);
       t.Some? && FieldsOk(spec, scope, keys, t.value, r.values)
  }

  // ------------------------------------------------------------ validity of a graph

  function KeysOf(rows: seq<RawRecord>): set<Key> {
    set i | 0 <= i < |rows| :: RecordKey(rows[i])
  }

  /** Optional fields that were left out are recorded as blank. */
  function NormalValues(fields: seq<Field>, values: Values): Values {
    map i | 0 <= i < |fields| :: fields[i].id := Get(values, fields[i].id)
  }

  function Normal(spec: Spec, r: RawRecord): RawRecord {
    match FindTable(spec.tables, r.table)
    case None => r
    case Some(t) => r.(values := NormalValues(t.fields, r.values))
  }

  function NormalRows(spec: Spec, rows: seq<RawRecord>): (r: seq<RawRecord>)
    ensures |r| == |rows|
    ensures forall i :: 0 <= i < |rows| ==> r[i] == Normal(spec, rows[i])
  {
    if rows == [] then [] else [Normal(spec, rows[0])] + NormalRows(spec, rows[1..])
  }

  /** Canonical facts: strictly ordered by table and record, total on the fields of their table. */
  function Canonical(spec: Spec, rows: seq<RawRecord>): seq<RawRecord> {
    NormalRows(spec, Sort(RecordKey, rows))
  }

  ghost predicate ValidGraph(spec: Spec, scope: Scope, rows: seq<RawRecord>) {
    && DistinctKeys(RecordKey, rows)
    && forall i :: 0 <= i < |rows| ==> RowOk(spec, scope, KeysOf(rows), rows[i])
  }

  ghost predicate ValidRows(spec: Spec, scope: Scope, rows: seq<RawRecord>) {
    && scope.app == spec.app
    && |rows| <= MAX_RECORDS
    && ValidGraph(spec, scope, rows)
    && Fits(rows)
    && Fits(Canonical(spec, rows))
  }

  /** `validate_records`: the canonical facts, or nothing. */
  ghost function Validate(spec: Spec, scope: Scope, rows: seq<RawRecord>): Option<seq<RawRecord>> {
    if ValidRows(spec, scope, rows) then Some(Canonical(spec, rows)) else None
  }

  /** Facts that went through validation. */
  ghost predicate CheckedRecords(spec: Spec, scope: Scope, rows: seq<RawRecord>) {
    && ValidRows(spec, scope, rows)
    && StrictlySorted(RecordKey, rows)
    && NormalRows(spec, rows) == rows
  }

  // ------------------------------------------------------------ canonical forms

  lemma {:induction false} RowsSizeInsert(r: RawRecord, rows: seq<RawRecord>)
    ensures RowsBytes(Insert(RecordKey, r, rows)) == RecordBytes(r) + 1 + RowsBytes(rows)
    ensures RowsNodes(Insert(RecordKey, r, rows)) == RecordNodes(r) + RowsNodes(rows)
  {
    if rows != [] && !KeyLeq(RecordKey(r), RecordKey(rows[0])) {
      RowsSizeInsert(r, rows[1..]);
      assert Insert(RecordKey, r, rows)[1..] == Insert(RecordKey, r, rows[1..]);
    } else {
      assert Insert(RecordKey, r, rows)[1..] == rows;
    }
  }

  /** The encoded size of a list of rows does not depend on their order. */
  lemma {:induction false} RowsSizeSort(rows: seq<RawRecord>)
    ensures RowsBytes(Sort(RecordKey, rows)) == RowsBytes(rows)
    ensures RowsNodes(Sort(RecordKey, rows)) == RowsNodes(rows)
  {
    if rows != [] {
      RowsSizeSort(rows[1..]);
      RowsSizeInsert(rows[0], Sort(RecordKey, rows[1..]));
    }
  }

  lemma KeysOfStep(rows: seq<RawRecord>, i: nat)
    requires i < |rows|
    ensures KeysOf(rows[..i + 1]) == KeysOf(rows[..i]) + {RecordKey(rows[i])}
  {
    assert forall j :: 0 <= j < i ==> rows[..i + 1][j] == rows[..i][j];
    assert rows[..i + 1][i] == rows[i];
  }

  lemma NoKeys()
    ensures KeysOf([]) == {}
  {
  }

  lemma KeysPermute(s: seq<RawRecord>, t: seq<RawRecord>)
    requires multiset(s) == multiset(t)
    ensures KeysOf(s) == KeysOf(t)
  {
    SameElements(s, t);
    forall k
      ensures k in KeysOf(s) <==> k in KeysOf(t)
    {
      if k in KeysOf(s) {
        var i :| 0 <= i < |s| && RecordKey(s[i]) == k;
        assert s[i] in t;
      }
      if k in KeysOf(t) {
        var i :| 0 <= i < |t| && RecordKey(t[i]) == k;
        assert t[i] in s;
      }
    }
  }

  lemma ValidGraphPermutes(spec: Spec, scope: Scope, s: seq<RawRecord>, t: seq<RawRecord>)
    requires multiset(s) == multiset(t) && ValidGraph(spec, scope, s)
    ensures ValidGraph(spec, scope, t)
  {
    DistinctPermutes(RecordKey, s, t);
    KeysPermute(s, t);
    SameElements(s, t);
    forall i | 0 <= i < |t|
      ensures RowOk(spec, scope, KeysOf(t), t[i])
    {
      assert t[i] in s;
    }
  }

  lemma NormalValuesOf(fields: seq<Field>, values: Values)
    ensures forall i :: 0 <= i < |fields| ==> Get(NormalValues(fields, values), fields[i].id) == Get(values, fields[i].id)
    ensures NormalValues(fields, NormalValues(fields, values)) == NormalValues(fields, values)
    ensures forall f :: f in NormalValues(fields, values) <==> KnownField(fields, f)
  {
    var n := NormalValues(fields, values);
    forall i | 0 <= i < |fields|
      ensures Get(n, fields[i].id) == Get(values, fields[i].id)
    {
      assert fields[i].id in n;
    }
    assert NormalValues(fields, n).Keys == n.Keys;
  }

  lemma NormalGet(spec: Spec, r: RawRecord, field: FieldId)
    requires FieldOf(spec, r.table, field).Some?
    ensures Get(Normal(spec, r).values, field) == Get(r.values, field)
  {
    var t := FindTable(spec.tables, r.table).value;
    NormalValuesOf(t.fields, r.values);
    var f := FieldOf(spec, r.table, field).value;
    var i :| 0 <= i < |t.fields| && t.fields[i] == f;
    assert t.fields[i].id == field;
  }

  lemma NormalRowOk(spec: Spec, scope: Scope, keys: set<Key>, r: RawRecord)
    requires RowOk(spec, scope, keys, r)
    ensures RowOk(spec, scope, keys, Normal(spec, r))
    ensures Normal(spec, Normal(spec, r)) == Normal(spec, r)
  {
    NormalValuesOf(FindTable(spec.tables, r.table).value.fields, r.values);
  }

  lemma NormalRowsKeys(spec: Spec, rows: seq<RawRecord>)
    ensures forall i :: 0 <= i < |rows| ==> RecordKey(NormalRows(spec, rows)[i]) == RecordKey(rows[i])
    ensures KeysOf(NormalRows(spec, rows)) == KeysOf(rows)
  {
    var n := NormalRows(spec, rows);
    forall k
      ensures k in KeysOf(n) <==> k in KeysOf(rows)
    {
      if k in KeysOf(n) {
        var i :| 0 <= i < |n| && RecordKey(n[i]) == k;
        assert RecordKey(rows[i]) == k;
      }
      if k in KeysOf(rows) {
        var i :| 0 <= i < |rows| && RecordKey(rows[i]) == k;
        assert RecordKey(n[i]) == k;
      }
    }
  }

  lemma NormalGraph(spec: Spec, scope: Scope, rows: seq<RawRecord>)
    requires ValidGraph(spec, scope, rows)
    ensures ValidGraph(spec, scope, NormalRows(spec, rows))
    ensures NormalRows(spec, NormalRows(spec, rows)) == NormalRows(spec, rows)
  {
    var n := NormalRows(spec, rows);
    NormalRowsKeys(spec, rows);
    forall i | 0 <= i < |n|
      ensures RowOk(spec, scope, KeysOf(n), n[i]) && NormalRows(spec, n)[i] == n[i]
    {
      NormalRowOk(spec, scope, KeysOf(rows), rows[i]);
    }
  }

  /** Validation publishes checked facts: ordered, total and closed under references. */
  lemma CanonicalChecked(spec: Spec, scope: Scope, rows: seq<RawRecord>)
    requires ValidRows(spec, scope, rows)
    ensures CheckedRecords(spec, scope, Canonical(spec, rows))
  {
    var s := Sort(RecordKey, rows);
    SortPermutes(RecordKey, rows);
    SortStrict(RecordKey, rows);
    SameElements(rows, s);
    ValidGraphPermutes(spec, scope, rows, s);
    NormalGraph(spec, scope, s);
    NormalRowsKeys(spec, s);
    var n := Canonical(spec, rows);
    assert StrictlySorted(RecordKey, n);
    SortFixed(RecordKey, n);
  }

  /** Canonical form is a fixed point: facts that were checked once are published unchanged. */
  lemma ValidateIdempotent(spec: Spec, scope: Scope, rows: seq<RawRecord>)
    ensures var once := Validate(spec, scope, rows);
            once.Some? ==> Validate(spec, scope, once.value) == once
  {
    if ValidRows(spec, scope, rows) {
      CanonicalChecked(spec, scope, rows);
      CheckedFixed(spec, scope, Canonical(spec, rows));
    }
  }

  lemma CheckedFixed(spec: Spec, scope: Scope, rows: seq<RawRecord>)
    requires CheckedRecords(spec, scope, rows)
    ensures Validate(spec, scope, rows) == Some(rows)
  {
    SortFixed(RecordKey, rows);
  }

  /** The order in which rows arrive decides neither acceptance nor the published facts. */
  lemma ValidateBlind(spec: Spec, scope: Scope, s: seq<RawRecord>, t: seq<RawRecord>)
    requires multiset(s) == multiset(t)
    ensures Validate(spec, scope, s) == Validate(spec, scope, t)
  {
    SortBlind(RecordKey, s, t);
    SameElements(s, t);
    if DistinctKeys(RecordKey, s) {
      RowsSizeSort(s);
      RowsSizeSort(t);
      if ValidGraph(spec, scope, s) { ValidGraphPermutes(spec, scope, s, t); }
      if ValidGraph(spec, scope, t) { ValidGraphPermutes(spec, scope, t, s); }
    }
  }

  // ------------------------------------------------------------ what a checked row offers

  function FindRow(rows: seq<RawRecord>, key: Key): (r: Option<RawRecord>)
    ensures r.Some? ==> r.value in rows && RecordKey(r.value) == key
    ensures r.None? ==> key !in KeysOf(rows)
  {
    if rows == [] then None
    else if RecordKey(rows[0]) == key then Some(rows[0])
    else
      var r := FindRow(rows[1..], key);
      assert KeysOf(rows) == {RecordKey(rows[0])} + KeysOf(rows[1..]) by {
        assert forall i :: 1 <= i < |rows| ==> rows[i] == rows[1..][i - 1];
      }
      r
  }

  lemma FoundKey(rows: seq<RawRecord>, key: Key)
    ensures FindRow(rows, key).Some? <==> key in KeysOf(rows)
  {
    if FindRow(rows, key).Some? {
      var i :| 0 <= i < |rows| && rows[i] == FindRow(rows, key).value;
      assert RecordKey(rows[i]) == key;
    }
  }

  lemma FindRowUnique(rows: seq<RawRecord>, r: RawRecord)
    requires DistinctKeys(RecordKey, rows) && r in rows
    ensures FindRow(rows, RecordKey(r)) == Some(r)
  {
    var found := FindRow(rows, RecordKey(r));
    var i :| 0 <= i < |rows| && rows[i] == r;
    assert RecordKey(rows[i]) in KeysOf(rows);
    var j :| 0 <= j < |rows| && rows[j] == found.value;
    assert i == j;
  }

  /** Every field of a checked row carries a value of its declared type, or none. */
  lemma CheckedField(spec: Spec, scope: Scope, rows: seq<RawRecord>, r: RawRecord, field: FieldId)
    requires CheckedRecords(spec, scope, rows) && r in rows
    requires FieldOf(spec, r.table, field).Some?
    ensures var f := FieldOf(spec, r.table, field).value;
            field in r.values && FieldOk(spec, scope, KeysOf(rows), r.table, f, r.values[field])
  {
    var i :| 0 <= i < |rows| && rows[i] == r;
    assert RowOk(spec, scope, KeysOf(rows), rows[i]);
    var t := FindTable(spec.tables, r.table).value;
    var f := FieldOf(spec, r.table, field).value;
    var k :| 0 <= k < |t.fields| && t.fields[k] == f;
    assert FieldOk(spec, scope, KeysOf(rows), t.id, t.fields[k], Get(r.values, t.fields[k].id));
    assert NormalRows(spec, rows)[i] == Normal(spec, r);
    NormalValuesOf(t.fields, r.values);
    assert KnownField(t.fields, field);
  }
}
