/**
 Record histories: what a run of commits can do to one record, and what it can never do.
 */
module Histories {
  import opened Wrappers
  import opened Sorting
  import opened AppSpec
  import opened Records
  import opened Authority
  import opened Commands
  import opened CommandProofs
  import opened Database
  import opened Journal

  /** The part of a book that its history rests on. */
  ghost predicate Lawful(cfg: Config, app: int, book: Book) {
    && Checked(book.spec)
    && CheckedRecords(book.spec, Scope(cfg.tenant, app), book.boot)
    && forall i :: 0 <= i < |book.log| ==> Committed(cfg, app, book, i)
  }

  lemma BookLawful(cfg: Config, db: Db, app: int, book: Book)
    requires BookOk(cfg, db, app, book)
    ensures Lawful(cfg, app, book)
  {
    hide Checked, CheckedRecords, Committed;
    forall i | 0 <= i < |book.log|
      ensures Committed(cfg, app, book, i)
    {
      assert Posted(cfg, db, app, book, i);
    }
  }

  function RowAt(book: Book, n: nat, k: Key): Option<RawRecord>
    requires n <= |book.log|
  {
    FindRow(FactsAfter(book, n), k)
  }

  function TargetOf(book: Book, i: nat): Key
    requires i < |book.log| && PreparedOf(book.spec, book.log[i]).Some?
  {
    Key(PreparedOf(book.spec, book.log[i]).value.machine.table, book.log[i].request.record)
  }

  lemma {:induction false} HistoryChecked(cfg: Config, app: int, book: Book, n: nat)
    requires Lawful(cfg, app, book) && n <= |book.log|
    ensures CheckedRecords(book.spec, Scope(cfg.tenant, app), FactsAfter(book, n))
  {
    hide Checked, CheckedRecords, Decide, Bound, Allows, Advances, Validate, GuardsHold, Folded;
    if n == 0 {
      FactsAfterNone(book);
    } else {
      HistoryChecked(cfg, app, book, n - 1);
      assert Committed(cfg, app, book, n - 1);
      DecisionMeans(book.spec, Scope(cfg.tenant, app), FactsAfter(book, n - 1), PreparedOf(book.spec, book.log[n - 1]).value);
    }
  }

  lemma FactsAfterNone(book: Book)
    ensures FactsAfter(book, 0) == book.boot
  {
  }

  /** One commit moves its own target along one declared transition and leaves every other record as it was. */
  lemma HistoryStep(cfg: Config, app: int, book: Book, i: nat, k: Key)
    requires Lawful(cfg, app, book) && i < |book.log|
    ensures PreparedOf(book.spec, book.log[i]).Some? && Bound(book.spec, PreparedOf(book.spec, book.log[i]).value)
    ensures KeysOf(FactsAfter(book, i + 1)) == KeysOf(FactsAfter(book, i))
    ensures k != TargetOf(book, i) ==> RowAt(book, i + 1, k) == RowAt(book, i, k)
    ensures k == TargetOf(book, i) ==>
              && RowAt(book, i, k).Some? && RowAt(book, i + 1, k).Some?
              && var p := PreparedOf(book.spec, book.log[i]).value;
                 Advances(book.spec, p, RowAt(book, i, k).value, RowAt(book, i + 1, k).value)
                 && p.command.fromState !in p.machine.terminal
  {
    hide Checked, CheckedRecords, Decide, Bound, Allows, Advances, Validate, GuardsHold, ReplaceRow, FactsAfter, FindRow, Proposed;
    var scope := Scope(cfg.tenant, app);
    var facts := FactsAfter(book, i);
    assert Committed(cfg, app, book, i);
    var p := PreparedOf(book.spec, book.log[i]).value;
    PreparedRequest(book.spec, book.log[i]);
    HistoryChecked(cfg, app, book, i);
    DecisionMeans(book.spec, scope, facts, p);
    CheckedDistinct(book.spec, scope, facts);
    var d := Decide(book.spec, scope, facts, p).value;
    ReplaceRowFind(facts, d.row);
    if k != TargetOf(book, i) {
      ReplaceRowOther(facts, d.row, k);
    }
  }

  lemma PreparedRequest(spec: Spec, e: Entry)
    ensures PreparedOf(spec, e).Some? ==> PreparedOf(spec, e).value.request == e.request && PreparedOf(spec, e).value.context == e.context
  {
  }

  /** The record set never changes. */
  lemma {:induction false} RecordSetConstant(cfg: Config, app: int, book: Book, n: nat)
    requires Lawful(cfg, app, book) && n <= |book.log|
    ensures KeysOf(FactsAfter(book, n)) == KeysOf(book.boot)
  {
    hide Lawful, FactsAfter, KeysOf, RowAt, Advances, Bound, PreparedOf, TargetOf;
    if n == 0 {
      FactsAfterNone(book);
    } else {
      RecordSetConstant(cfg, app, book, n - 1);
      HistoryStep(cfg, app, book, n - 1, Key(0, 0));
    }
  }

  /** Fields no command may ever write in a table: its owner, its references, its captured prices. */
  ghost predicate Frozen(spec: Spec, table: TableId, f: FieldId) {
    || IsCaptured(spec, table, f)
    || (exists p :: p in spec.policies && p.table == table && p.ownerField == f)
    || (match TypeOf(spec, table, f) case Some(t) => t.RefType? case None => false)
  }

  /** The same record, with the same owner, references and captured prices. */
  ghost predicate SameIdentity(spec: Spec, was: RawRecord, now: RawRecord) {
    && now.scope == was.scope && now.table == was.table && now.id == was.id
    && now.values.Keys == was.values.Keys
    && forall f :: f in was.values && Frozen(spec, was.table, f) ==> now.values[f] == was.values[f]
  }

  lemma AdvanceKeepsFrozen(spec: Spec, p: Prepared, was: RawRecord, now: RawRecord)
    requires Checked(spec) && Bound(spec, p) && Advances(spec, p, was, now) && was.table == p.machine.table
    ensures SameIdentity(spec, was, now)
  {
    hide TablesChecked, ConstraintsChecked, CapturesChecked, MachinesChecked, CommandsChecked, VersionChecked, IsCaptured, TypeOf,
      PolicyChecked, InputsAccepted, RequestFits, IntentFits;
    forall f | f in was.values && Frozen(spec, was.table, f)
      ensures now.values[f] == was.values[f]
    {
      if exists q :: q in spec.policies && q.table == was.table && q.ownerField == f {
        var q :| q in spec.policies && q.table == was.table && q.ownerField == f;
        assert p.policy in spec.policies && p.policy.table == q.table;
      }
      assert Fixed(spec, p.policy, f);
    }
  }

  /** Owners, references and captured prices are constant over any run of commits. */
  lemma {:induction false} FrozenFieldsConstant(cfg: Config, app: int, book: Book, i: nat, j: nat, k: Key)
    requires Lawful(cfg, app, book) && i <= j <= |book.log| && RowAt(book, i, k).Some?
    ensures RowAt(book, j, k).Some? && SameIdentity(book.spec, RowAt(book, i, k).value, RowAt(book, j, k).value)
    decreases j
  {
    hide Checked, CheckedRecords, Committed, RowAt, Advances, Bound, Frozen;
    if i < j {
      FrozenFieldsConstant(cfg, app, book, i, j - 1, k);
      HistoryStep(cfg, app, book, j - 1, k);
      if k == TargetOf(book, j - 1) {
        RowAtKey(book, j - 1, k);
        AdvanceKeepsFrozen(book.spec, PreparedOf(book.spec, book.log[j - 1]).value, RowAt(book, j - 1, k).value, RowAt(book, j, k).value);
      }
    }
  }

  lemma RowAtKey(book: Book, n: nat, k: Key)
    requires n <= |book.log| && RowAt(book, n, k).Some?
    ensures RecordKey(RowAt(book, n, k).value) == k
  {
  }

  // ------------------------------------------------------------ states

  function StateOf(book: Book, n: nat, m: StateMachine, record: RecordId): Option<string>
    requires n <= |book.log|
  {
    match RowAt(book, n, Key(m.table, record))
    case None => None
    case Some(row) =>
      match Get(row.values, m.stateField)
      case Text(s) => Some(s)
      case _ => None
  }

  /** Every governed record is in one of the declared states, at every revision. */
  lemma StatesDeclared(cfg: Config, app: int, book: Book, n: nat, m: StateMachine, record: RecordId)
    requires Lawful(cfg, app, book) && n <= |book.log| && m in book.spec.machines
    requires RowAt(book, n, Key(m.table, record)).Some?
    ensures StateOf(book, n, m, record).Some? && StateOf(book, n, m, record).value in m.states
  {
    hide Committed, FactsAfter, TablesChecked, ConstraintsChecked, CapturesChecked, PoliciesChecked, CommandsChecked, FieldOf;
    HistoryChecked(cfg, app, book, n);
    var row := RowAt(book, n, Key(m.table, record)).value;
    assert MachineChecked(book.spec, m);
    CheckedField(book.spec, Scope(cfg.tenant, app), FactsAfter(book, n), row, m.stateField);
    var i :| 0 <= i < |book.spec.machines| && book.spec.machines[i] == m;
    var f := FieldOf(book.spec, m.table, m.stateField).value;
    FieldOfId(book.spec, m.table, m.stateField);
    assert MachinesAccept(book.spec, m.table, f.id, row.values[m.stateField]);
  }

  lemma FieldOfId(spec: Spec, table: TableId, field: FieldId)
    ensures FieldOf(spec, table, field).Some? ==> FieldOf(spec, table, field).value.id == field
  {
  }

  lemma MachineOfTable(spec: Spec, p: Prepared, m: StateMachine)
    requires Checked(spec) && Bound(spec, p) && m in spec.machines && m.table == p.machine.table
    ensures p.machine == m
  {
    hide TablesChecked, ConstraintsChecked, CapturesChecked, PoliciesChecked, CommandsChecked, MachineChecked, CommandChecked,
      InputsAccepted;
  }

  /** Between two revisions a state stays, or moves along a declared command out of a state that is not terminal. */
  lemma StatePath(cfg: Config, app: int, book: Book, i: nat, m: StateMachine, record: RecordId)
    requires Lawful(cfg, app, book) && i < |book.log| && m in book.spec.machines
    requires RowAt(book, i, Key(m.table, record)).Some?
    ensures RowAt(book, i + 1, Key(m.table, record)).Some?
    ensures || RowAt(book, i + 1, Key(m.table, record)) == RowAt(book, i, Key(m.table, record))
            || (exists c :: c in book.spec.commands && c.id == book.log[i].request.command && c.machine == m.id
                            && book.log[i].request.record == record
                            && StateOf(book, i, m, record) == Some(c.fromState)
                            && StateOf(book, i + 1, m, record) == Some(c.toState)
                            && c.fromState in m.states && c.toState in m.states && c.fromState !in m.terminal)
  {
    hide Checked, CheckedRecords, Committed, RowAt, InputsAccepted, RequestFits, IntentFits, ValidKey;
    var k := Key(m.table, record);
    HistoryStep(cfg, app, book, i, k);
    if k == TargetOf(book, i) {
      var p := PreparedOf(book.spec, book.log[i]).value;
      PreparedRequest(book.spec, book.log[i]);
      MachineOfTable(book.spec, p, m);
      assert p.command in book.spec.commands;
    }
  }

  /** A record in a terminal state never changes again, in any field. */
  lemma {:induction false} TerminalFrozen(cfg: Config, app: int, book: Book, i: nat, j: nat, m: StateMachine, record: RecordId)
    requires Lawful(cfg, app, book) && i <= j <= |book.log| && m in book.spec.machines
    requires StateOf(book, i, m, record).Some? && StateOf(book, i, m, record).value in m.terminal
    ensures RowAt(book, j, Key(m.table, record)) == RowAt(book, i, Key(m.table, record))
    decreases j
  {
    hide Lawful, RowAt;
    if i < j {
      TerminalFrozen(cfg, app, book, i, j - 1, m, record);
      assert StateOf(book, j - 1, m, record) == StateOf(book, i, m, record);
      StatePath(cfg, app, book, j - 1, m, record);
    }
  }
}
