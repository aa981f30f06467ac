/**
 What one decided command may change: the declared inputs and the state of one record, and nothing
 else anywhere in the facts.
 */
module CommandProofs {
  import opened Wrappers
  import opened Sorting
  import opened AppSpec
  import opened Records
  import opened Authority
  import opened Commands
  import Relations

  // ------------------------------------------------------------ replacing a row

  lemma {:induction false} ReplaceRowAt(rows: seq<RawRecord>, r: RawRecord)
    requires DistinctKeys(RecordKey, rows)
    ensures |ReplaceRow(rows, r)| == |rows|
    ensures forall i :: 0 <= i < |rows| ==> ReplaceRow(rows, r)[i] == if RecordKey(rows[i]) == RecordKey(r) then r else rows[i]
  {
    if rows != [] {
      if RecordKey(rows[0]) == RecordKey(r) {
        forall i | 1 <= i < |rows|
          ensures RecordKey(rows[i]) != RecordKey(r)
        {
          assert RecordKey(rows[0]) != RecordKey(rows[i]);
        }
      } else {
        ReplaceRowAt(rows[1..], r);
        assert forall i :: 1 <= i < |rows| ==> rows[i] == rows[1..][i - 1];
      }
    }
  }

  lemma ReplaceRowCanonical(spec: Spec, scope: Scope, rows: seq<RawRecord>, r: RawRecord)
    requires CheckedRecords(spec, scope, rows) && Normal(spec, r) == r
    ensures Canonical(spec, ReplaceRow(rows, r)) == ReplaceRow(rows, r)
  {
    hide ValidRows, Normal;
    assert DistinctKeys(RecordKey, rows);
    ReplaceRowAt(rows, r);
    var next := ReplaceRow(rows, r);
    assert StrictlySorted(RecordKey, next) by {
      forall i, j | 0 <= i < j < |next|
        ensures KeyLess(RecordKey(next[i]), RecordKey(next[j]))
      {
        assert KeyLess(RecordKey(rows[i]), RecordKey(rows[j]));
      }
    }
    SortFixed(RecordKey, next);
    forall i | 0 <= i < |next|
      ensures NormalRows(spec, next)[i] == next[i]
    {
      assert NormalRows(spec, rows)[i] == rows[i];
    }
    assert NormalRows(spec, next) == next;
  }

  lemma ReplaceRowKeys(rows: seq<RawRecord>, r: RawRecord)
    requires DistinctKeys(RecordKey, rows)
    ensures DistinctKeys(RecordKey, ReplaceRow(rows, r)) && KeysOf(ReplaceRow(rows, r)) == KeysOf(rows)
  {
    ReplaceRowAt(rows, r);
    var next := ReplaceRow(rows, r);
    assert forall i :: 0 <= i < |rows| ==> RecordKey(next[i]) == RecordKey(rows[i]);
  }

  lemma ReplaceRowFind(rows: seq<RawRecord>, r: RawRecord)
    requires DistinctKeys(RecordKey, rows) && FindRow(rows, RecordKey(r)).Some?
    ensures FindRow(ReplaceRow(rows, r), RecordKey(r)) == Some(r)
    ensures KeysOf(ReplaceRow(rows, r)) == KeysOf(rows)
  {
    hide ReplaceRow, FindRow;
    ReplaceRowAt(rows, r);
    ReplaceRowKeys(rows, r);
    var was := FindRow(rows, RecordKey(r)).value;
    var i :| 0 <= i < |rows| && rows[i] == was;
    assert ReplaceRow(rows, r)[i] == r;
    FindRowUnique(ReplaceRow(rows, r), r);
  }

  /** Replacing one row is invisible to every other identity. */
  lemma ReplaceRowOther(rows: seq<RawRecord>, r: RawRecord, k: Key)
    requires DistinctKeys(RecordKey, rows) && k != RecordKey(r)
    ensures FindRow(ReplaceRow(rows, r), k) == FindRow(rows, k)
  {
    hide ReplaceRow, FindRow;
    ReplaceRowAt(rows, r);
    ReplaceRowKeys(rows, r);
    var next := ReplaceRow(rows, r);
    FoundKey(rows, k);
    FoundKey(next, k);
    if FindRow(rows, k).Some? {
      var other := FindRow(rows, k).value;
      var j :| 0 <= j < |rows| && rows[j] == other;
      assert next[j] == other;
      FindRowUnique(next, other);
    }
  }

  // ------------------------------------------------------------ one decision

  lemma RowNormal(spec: Spec, scope: Scope, rows: seq<RawRecord>, r: RawRecord)
    requires CheckedRecords(spec, scope, rows) && r in rows
    ensures Normal(spec, r) == r && r.scope == scope
    ensures FindTable(spec.tables, r.table).Some?
    ensures forall f :: f in r.values <==> KnownField(FindTable(spec.tables, r.table).value.fields, f)
  {
    var i :| 0 <= i < |rows| && rows[i] == r;
    assert NormalRows(spec, rows)[i] == Normal(spec, r);
    assert RowOk(spec, scope, KeysOf(rows), rows[i]);
    NormalValuesOf(FindTable(spec.tables, r.table).value.fields, r.values);
  }

  lemma FieldIsKnown(spec: Spec, table: TableId, field: FieldId)
    requires FieldOf(spec, table, field).Some?
    ensures FindTable(spec.tables, table).Some? && KnownField(FindTable(spec.tables, table).value.fields, field)
  {
    var fields := FindTable(spec.tables, table).value.fields;
    var f := FieldOf(spec, table, field).value;
    var i :| 0 <= i < |fields| && fields[i] == f;
    assert fields[i].id == field;
  }

  /** The entities that a prepared command is bound to are the declared ones, and they fit together. */
  lemma PreparedMeans(spec: Spec, facts: seq<RawRecord>, call: Call, reading: Reading, q: Request)
    requires Checked(spec)
    ensures Prepare(spec, facts, call, reading, q).Ok? ==>
              var p := Prepare(spec, facts, call, reading, q).value;
              && p.request == q && Resolve(call, Write, reading) == Ok(p.context) && p.context.scope == call.scope
              && call.scope.app == spec.app
              && Bound(spec, p)
              && FindRow(facts, Key(p.machine.table, q.record)).Some?
              && Allows(p.policy, p.context, FindRow(facts, Key(p.machine.table, q.record)).value)
  {
    hide Resolve, Allows, ValidKey, RequestFits, IntentFits, InputsAccepted, CommandChecked, FindCommand, FindMachine,
      FindPolicy, FindRow, Prepare, TablesChecked, ConstraintsChecked, CapturesChecked, PoliciesChecked, MachinesChecked, VersionChecked;
    ResolvedMeans(call, Write, reading);
    PrepareUnfolds(spec, facts, call, reading, q);
    var r := Prepare(spec, facts, call, reading, q);
    if r.Ok? {
      assert r.value.command in spec.commands;
    }
  }

  lemma PrepareUnfolds(spec: Spec, facts: seq<RawRecord>, call: Call, reading: Reading, q: Request)
    ensures Prepare(spec, facts, call, reading, q).Ok? ==>
              var p := Prepare(spec, facts, call, reading, q).value;
              && p.request == q && Resolve(call, Write, reading) == Ok(p.context) && call.scope.app == spec.app
              && FindCommand(spec.commands, q.command) == Some(p.command)
              && FindMachine(spec.machines, p.command.machine) == Some(p.machine)
              && FindPolicy(spec.policies, p.command.policy) == Some(p.policy)
              && ValidKey(q.key) && |q.inputs| <= MAX_COMMAND_INPUTS
              && RequestFits(q) && IntentFits(spec, q)
              && InputsAccepted(spec, p.machine, p.command, q.inputs)
              && FindRow(facts, Key(p.machine.table, q.record)).Some?
              && Allows(p.policy, p.context, FindRow(facts, Key(p.machine.table, q.record)).value)
  {
    hide Resolve, Allows, ValidKey, RequestFits, IntentFits, InputsAccepted, FindCommand, FindMachine, FindPolicy, FindRow;
  }

  /** What Prepare establishes about a command and what Checked establishes about its declaration. */
  ghost predicate Bound(spec: Spec, p: Prepared) {
    && FindCommand(spec.commands, p.request.command) == Some(p.command)
    && FindMachine(spec.machines, p.command.machine) == Some(p.machine)
    && FindPolicy(spec.policies, p.command.policy) == Some(p.policy)
    && CommandChecked(spec, p.command)
    && ValidKey(p.request.key) && |p.request.inputs| <= MAX_COMMAND_INPUTS
    && RequestFits(p.request) && IntentFits(spec, p.request)
    && InputsAccepted(spec, p.machine, p.command, p.request.inputs)
  }

  lemma InputField(spec: Spec, p: Prepared, f: FieldId)
    requires Bound(spec, p) && f in p.request.inputs
    ensures FieldOf(spec, p.machine.table, f).Some?
    ensures f != p.machine.stateField && f != p.policy.ownerField
    ensures !TypeOf(spec, p.machine.table, f).value.RefType? && !IsCaptured(spec, p.machine.table, f)
  {
    assert InputAccepted(spec, p.machine, p.command, f, p.request.inputs[f]);
    var input := FindInput(p.command.inputs, f).value;
    assert InputChecked(spec, p.machine, p.policy, input);
  }

  lemma StateFieldKnown(spec: Spec, p: Prepared)
    requires Checked(spec) && Bound(spec, p)
    ensures FieldOf(spec, p.machine.table, p.machine.stateField).Some?
    ensures p.policy.table == p.machine.table && p.policy.ownerField != p.machine.stateField
    ensures TypeOf(spec, p.machine.table, p.machine.stateField) == Some(TextType)
  {
    assert MachineChecked(spec, p.machine);
  }

  /** The proposed record is already in canonical form. */
  lemma ProposedNormal(spec: Spec, scope: Scope, facts: seq<RawRecord>, p: Prepared, row: RawRecord)
    requires Checked(spec) && Bound(spec, p) && CheckedRecords(spec, scope, facts)
    requires FindRow(facts, Key(p.machine.table, p.request.record)) == Some(row)
    ensures Normal(spec, Proposed(p, row)) == Proposed(p, row)
    ensures Proposed(p, row).values.Keys == row.values.Keys
  {
    hide Checked, CheckedRecords, Bound;
    RowNormal(spec, scope, facts, row);
    StateFieldKnown(spec, p);
    FieldIsKnown(spec, p.machine.table, p.machine.stateField);
    var q := Proposed(p, row);
    var fields := FindTable(spec.tables, row.table).value.fields;
    forall f
      ensures f in q.values <==> f in row.values
    {
      if f in p.request.inputs {
        InputField(spec, p, f);
        FieldIsKnown(spec, p.machine.table, f);
      }
    }
    assert q.values.Keys == row.values.Keys;
    NormalValuesOf(fields, q.values);
    var n := NormalValues(fields, q.values);
    assert n.Keys == q.values.Keys;
    forall f | f in n
      ensures n[f] == q.values[f]
    {
      var i :| 0 <= i < |fields| && fields[i].id == f;
      assert Get(n, fields[i].id) == Get(q.values, fields[i].id);
    }
    assert n == q.values;
  }

  /** A row before and after: only declared inputs and the state may differ. */
  ghost predicate Advances(spec: Spec, p: Prepared, was: RawRecord, now: RawRecord) {
    && now.scope == was.scope && now.table == was.table && now.id == was.id
    && now.values.Keys == was.values.Keys
    && Get(was.values, p.machine.stateField) == Text(p.command.fromState)
    && Get(now.values, p.machine.stateField) == Text(p.command.toState)
    && (forall f :: f in p.request.inputs ==> f in now.values && now.values[f] == p.request.inputs[f])
    && (forall f :: f in was.values && f !in p.request.inputs && f != p.machine.stateField ==> now.values[f] == was.values[f])
    && (forall f :: f in was.values && Fixed(spec, p.policy, f) ==> now.values[f] == was.values[f])
  }

  /** Owners, references and captured prices. */
  predicate Fixed(spec: Spec, policy: Policy, f: FieldId) {
    || f == policy.ownerField
    || IsCaptured(spec, policy.table, f)
    || (match TypeOf(spec, policy.table, f) case Some(t) => t.RefType? case None => false)
  }

  lemma ProposedAdvances(spec: Spec, scope: Scope, facts: seq<RawRecord>, p: Prepared, row: RawRecord)
    requires Checked(spec) && Bound(spec, p) && CheckedRecords(spec, scope, facts)
    requires FindRow(facts, Key(p.machine.table, p.request.record)) == Some(row)
    requires TransitionOpen(p.command, p.machine, row)
    ensures Advances(spec, p, row, Proposed(p, row))
  {
    hide Checked, CheckedRecords, Bound, IsCaptured;
    ProposedNormal(spec, scope, facts, p, row);
    StateFieldKnown(spec, p);
    StateNotCaptured(spec, p);
    var now := Proposed(p, row);
    forall f | f in row.values && Fixed(spec, p.policy, f)
      ensures now.values[f] == row.values[f]
    {
      if f in p.request.inputs {
        InputField(spec, p, f);
      }
    }
    forall f | f in p.request.inputs
      ensures f in now.values && now.values[f] == p.request.inputs[f]
    {
      InputField(spec, p, f);
    }
  }

  lemma StateNotCaptured(spec: Spec, p: Prepared)
    requires Checked(spec) && Bound(spec, p)
    ensures !IsCaptured(spec, p.machine.table, p.machine.stateField)
  {
    StateFieldKnown(spec, p);
    if IsCaptured(spec, p.machine.table, p.machine.stateField) {
      Relations.DestinationIsMoney(spec, p.machine.table, p.machine.stateField);
    }
  }

  /** A decision replaces exactly one row, and that row advances by exactly one declared transition. */
  lemma DecisionMeans(spec: Spec, scope: Scope, facts: seq<RawRecord>, p: Prepared)
    requires Checked(spec) && Bound(spec, p) && CheckedRecords(spec, scope, facts)
    requires Decide(spec, scope, facts, p).Ok?
    ensures var d := Decide(spec, scope, facts, p).value;
            var key := Key(p.machine.table, p.request.record);
            && FindRow(facts, key).Some?
            && RecordKey(d.row) == key
            && d.row == Proposed(p, FindRow(facts, key).value)
            && Advances(spec, p, FindRow(facts, key).value, d.row)
            && d.facts == ReplaceRow(facts, d.row)
            && CheckedRecords(spec, scope, d.facts)
            && Validate(spec, scope, ReplaceRow(facts, d.row)) == Some(d.facts)
            && d.events == EventsOf(p.command.events, d.row)
            && p.command.fromState !in p.machine.terminal
            && GuardsHold(p.command, FindRow(facts, key).value)
            && Allows(p.policy, p.context, d.row)
  {
    hide Checked, CheckedRecords, Bound, ValidRows, Canonical, GuardsHold, Allows, ReplaceRow, Advances, Proposed, FindRow;
    var key := Key(p.machine.table, p.request.record);
    var row := FindRow(facts, key).value;
    var next := Proposed(p, row);
    ProposedNormal(spec, scope, facts, p, row);
    ProposedAdvances(spec, scope, facts, p, row);
    ProposedIdentity(p, row);
    ReplaceRowCanonical(spec, scope, facts, next);
    CanonicalChecked(spec, scope, ReplaceRow(facts, next));
    CheckedDistinct(spec, scope, facts);
    ReplaceRowFind(facts, next);
  }

  lemma ProposedIdentity(p: Prepared, row: RawRecord)
    ensures RecordKey(Proposed(p, row)) == RecordKey(row)
  {
  }

  lemma CheckedDistinct(spec: Spec, scope: Scope, rows: seq<RawRecord>)
    requires CheckedRecords(spec, scope, rows)
    ensures DistinctKeys(RecordKey, rows) && ValidRows(spec, scope, rows) && StrictlySorted(RecordKey, rows)
  {
  }

  /** The owner of a row decides who may write it, and no command changes owners. */
  lemma AllowsKept(spec: Spec, p: Prepared, was: RawRecord, now: RawRecord, context: Context)
    requires Advances(spec, p, was, now)
    ensures Allows(p.policy, context, now) <==> Allows(p.policy, context, was)
  {
    assert Fixed(spec, p.policy, p.policy.ownerField);
  }
}
