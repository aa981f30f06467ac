/**
 Definitions in plain terms: what a definition must declare, said of the definition as it was written,
 by membership and in any order. The compiler accepts exactly the definitions that keep these rules.
 */
module PlainDefinitions {
  import opened Wrappers
  import opened Sorting
  import opened AppSpec
  import opened Compile
  import opened PlainFacts

  // ------------------------------------------------------------ the rules

  /** Table `table` declares field `id` with type `t`. */
  ghost predicate DeclaredAs(d: Spec, table: TableId, id: FieldId, t: FieldType) {
    exists f :: Declares(d, table, f) && f.id == id && f.fieldType == t
  }

  function FieldIds(d: Spec): set<FieldId> {
    set t, f | t in d.tables && f in t.fields :: f.id
  }

  ghost predicate TableRules(d: Spec) {
    && |d.tables| <= 64
    && (forall i, j :: 0 <= i < j < |d.tables| ==> d.tables[i].id != d.tables[j].id)
    && (forall t :: t in d.tables ==> |t.fields| <= 256 && forall i, j :: 0 <= i < j < |t.fields| ==> t.fields[i].id != t.fields[j].id)
    && FieldsApart(d)
    && |FieldIds(d)| <= 2_048
    && TargetsKnown(d)
  }

  /** No two tables declare the same field. */
  ghost predicate FieldsApart(d: Spec) {
    forall t, u, f, g :: Declares(d, t, f) && Declares(d, u, g) && f.id == g.id ==> t == u
  }

  /** Every reference is to a table of the definition. */
  ghost predicate TargetsKnown(d: Spec) {
    forall t, f :: Declares(d, t, f) && f.fieldType.RefType? ==> HasTable(d, f.fieldType.target)
  }

  ghost predicate HasTable(d: Spec, id: TableId) {
    exists u :: u in d.tables && u.id == id
  }

  /** Texts are not empty or of bounded length, numbers lie in a range; no bound is upside down. */
  predicate RuleSuits(c: Constraint, t: FieldType) {
    match c
    case NonEmpty => t == TextType
    case TextLength(lo, hi) => t == TextType && lo <= hi && hi <= 16_384
    case NumericRange(lo, hi) => (t == IntegerType || t == MoneyType) && lo <= hi
  }

  ghost predicate ConstraintRules(d: Spec) {
    && |d.constraints| <= 256
    && (forall i, j :: 0 <= i < j < |d.constraints| ==> d.constraints[i].id != d.constraints[j].id)
    && (forall c :: c in d.constraints ==> exists t :: DeclaredAs(d, c.table, c.field, t) && RuleSuits(c.constraint, t))
  }

  /** A capture copies money, through a reference, from a field that no capture fills. */
  ghost predicate CaptureRules(d: Spec) {
    && |d.captures| <= 2_048
    && (forall i, j :: 0 <= i < j < |d.captures| ==>
          d.captures[i].lineTable != d.captures[j].lineTable || d.captures[i].capturedPrice != d.captures[j].capturedPrice)
    && (forall c :: c in d.captures ==> CopiesMoney(d, c))
  }

  ghost predicate CopiesMoney(d: Spec, c: CaptureRule) {
    && DeclaredAs(d, c.lineTable, c.capturedPrice, MoneyType)
    && exists target ::
         && DeclaredAs(d, c.lineTable, c.productRef, RefType(target)) && DeclaredAs(d, target, c.productPrice, MoneyType)
         && forall o :: o in d.captures ==> o.lineTable != target || o.capturedPrice != c.productPrice
  }

  /** An owner is text, what may be read is no reference, and one policy governs a table. */
  ghost predicate PolicyRules(d: Spec) {
    && |d.policies| <= 64
    && (forall i, j :: 0 <= i < j < |d.policies| ==> d.policies[i].id != d.policies[j].id && d.policies[i].table != d.policies[j].table)
    && (forall p :: p in d.policies ==> PolicyRule(d, p))
  }

  ghost predicate PolicyRule(d: Spec, p: Policy) {
    && 1 <= p.revision
    && |p.readFields| <= 256 && |p.readRoles| <= 64 && |p.writeRoles| <= 64 && |p.submitRoles| <= 64
    && DeclaredAs(d, p.table, p.ownerField, TextType)
    && forall g :: g in p.readFields ==> exists t :: DeclaredAs(d, p.table, g, t) && !t.RefType?
  }

  /** States are few, short and printable, live in a required text field, and break no constraint on it. */
  ghost predicate MachineRules(d: Spec) {
    && |d.machines| <= 64
    && (forall i, j :: 0 <= i < j < |d.machines| ==> d.machines[i].id != d.machines[j].id && d.machines[i].table != d.machines[j].table)
    && (forall m :: m in d.machines ==> MachineRule(d, m))
  }

  ghost predicate MachineRule(d: Spec, m: StateMachine) {
    && 1 <= |m.states| && |m.states| <= 64 && |m.terminal| <= 64
    && (forall s :: s in m.terminal ==> s in m.states)
    && (forall s :: s in m.states ==> 1 <= |s| && TextBytes(s) <= 64)
    && (forall s, c :: s in m.states && c in s ==> !(c as int <= 31) && !(127 <= c as int && c as int <= 159))
    && (exists f :: Declares(d, m.table, f) && f.id == m.stateField && f.fieldType == TextType && f.required)
    && (forall s, c :: s in m.states && c in d.constraints && c.table == m.table && c.field == m.stateField ==> Obeys(c.constraint, Text(s)))
  }

  /** Commands are bound to a machine and a policy of one table, and keep the rules of that binding. */
  ghost predicate CommandRules(d: Spec) {
    && |d.commands| <= 64
    && (forall i, j :: 0 <= i < j < |d.commands| ==> d.commands[i].id != d.commands[j].id)
    && (forall c :: c in d.commands ==>
          exists m, p :: m in d.machines && m.id == c.machine && p in d.policies && p.id == c.policy && CommandRule(d, c, m, p))
  }

  ghost predicate CommandRule(d: Spec, c: Command, m: StateMachine, p: Policy) {
    && 1 <= c.revision && |c.inputs| <= 64 && |c.guards| <= 32 && |c.events| <= 16
    && p.table == m.table && p.ownerField != m.stateField
    && c.fromState in m.states && c.toState in m.states && c.fromState !in m.terminal && c.fromState != c.toState
    && (forall i, j :: 0 <= i < j < |c.inputs| ==> c.inputs[i].field != c.inputs[j].field)
    && (forall input :: input in c.inputs ==> InputRule(d, m, p, input))
    && (forall i, j :: 0 <= i < j < |c.guards| ==> c.guards[i].field != c.guards[j].field)
    && (forall g :: g in c.guards ==> GuardRule(d, m, g))
    && (forall i, j :: 0 <= i < j < |c.events| ==> c.events[i].id != c.events[j].id)
    && (forall e :: e in c.events ==> |e.fields| <= 64 && forall f :: f in e.fields ==> f in p.readFields)
  }

  /** An input writes a declared field that is neither state, owner, reference, captured price nor the path to one. */
  ghost predicate InputRule(d: Spec, m: StateMachine, p: Policy, input: CommandInput) {
    && input.field != m.stateField && input.field != p.ownerField && |input.constraints| <= 8
    && (forall o :: o in d.captures && o.lineTable == m.table ==> o.capturedPrice != input.field && o.productRef != input.field)
    && exists t :: DeclaredAs(d, m.table, input.field, t) && !t.RefType? && forall k :: k in input.constraints ==> RuleSuits(k, t)
  }

  /** A guard compares a declared field that is no reference with a value of its type, or with nothing. */
  ghost predicate GuardRule(d: Spec, m: StateMachine, g: Guard) {
    exists t :: DeclaredAs(d, m.table, g.field, t) && !t.RefType? && (g.equals == Blank || g.equals == Null || ValueSuits(t, g.equals))
  }

  predicate ValueSuits(t: FieldType, v: Value) {
    match t
    case TextType => v.Text? && TextBytes(v.text) <= 16_384
    case IntegerType => v.Integer?
    case BoolType => v.Bool?
    case MoneyType => v.Money?
    case RefType(_) => false
  }

  ghost predicate Rules(d: Spec) {
    && (d.version == 1 || d.version == 2)
    && (d.version == 1 ==> |d.constraints| == 0 && |d.machines| == 0 && |d.commands| == 0)
    && TableRules(d) && ConstraintRules(d) && CaptureRules(d) && PolicyRules(d) && MachineRules(d) && CommandRules(d)
  }

  // ------------------------------------------------------------ what sorting keeps

  lemma SortedIn<T>(key: T -> Key, s: seq<T>, x: T)
    ensures x in Sort(key, s) <==> x in s
  {
    SortPermutes(key, s);
    SameElements(s, Sort(key, s));
  }

  lemma TableArranged(d: Spec, t: Table)
    ensures t in Arranged(d).tables <==> exists u :: u in d.tables && t == WithSortedFields(u)
  {
    hide Sort;
    var sorted := Sort(TableKey, d.tables);
    var all := Arranged(d).tables;
    if t in all {
      var i :| 0 <= i < |all| && all[i] == t;
      SortedIn(TableKey, d.tables, sorted[i]);
    }
    if u :| u in d.tables && t == WithSortedFields(u) {
      SortedIn(TableKey, d.tables, u);
      var i :| 0 <= i < |sorted| && sorted[i] == u;
      assert all[i] == t;
    }
  }

  lemma CommandArranged(d: Spec, c: Command)
    ensures c in Arranged(d).commands <==> exists b :: b in d.commands && c == WithSortedParts(b)
  {
    hide Sort;
    var sorted := Sort(CommandKey, d.commands);
    var all := Arranged(d).commands;
    if c in all {
      var i :| 0 <= i < |all| && all[i] == c;
      SortedIn(CommandKey, d.commands, sorted[i]);
    }
    if b :| b in d.commands && c == WithSortedParts(b) {
      SortedIn(CommandKey, d.commands, b);
      var i :| 0 <= i < |sorted| && sorted[i] == b;
      assert all[i] == c;
    }
  }

  lemma DeclaresArranged(d: Spec, table: TableId, f: Field)
    ensures Declares(Arranged(d), table, f) <==> Declares(d, table, f)
  {
    hide Sort, Arranged;
    if Declares(d, table, f) {
      var u :| u in d.tables && u.id == table && f in u.fields;
      TableArranged(d, WithSortedFields(u));
      SortedIn(FieldKey, u.fields, f);
    }
    if Declares(Arranged(d), table, f) {
      var t :| t in Arranged(d).tables && t.id == table && f in t.fields;
      TableArranged(d, t);
      var u :| u in d.tables && t == WithSortedFields(u);
      SortedIn(FieldKey, u.fields, f);
    }
  }

  // ------------------------------------------------------------ tables

  function IdSet(fields: seq<Field>): set<FieldId> {
    set f | f in fields :: f.id
  }

  lemma LastId(fields: seq<Field>)
    requires fields != []
    ensures IdSet(fields) == IdSet(fields[..|fields| - 1]) + {fields[|fields| - 1].id}
  {
    var n := |fields| - 1;
    assert fields == fields[..n] + [fields[n]];
    assert forall f :: f in fields <==> f in fields[..n] || f == fields[n];
  }

  lemma NewId(fields: seq<Field>)
    requires fields != [] && forall i, j :: 0 <= i < j < |fields| ==> fields[i].id != fields[j].id
    ensures fields[|fields| - 1].id !in IdSet(fields[..|fields| - 1])
  {
    var n := |fields| - 1;
    forall f | f in fields[..n]
      ensures f.id != fields[n].id
    {
      var i :| 0 <= i < n && fields[..n][i] == f;
      assert fields[i].id != fields[n].id;
    }
  }

  lemma {:induction false} IdsCounted(fields: seq<Field>)
    requires forall i, j :: 0 <= i < j < |fields| ==> fields[i].id != fields[j].id
    ensures |IdSet(fields)| == |fields|
    decreases |fields|
  {
    if fields == [] {
      assert IdSet(fields) == {};
    } else {
      hide IdSet;
      IdsCounted(fields[..|fields| - 1]);
      LastId(fields);
      NewId(fields);
    }
  }

  function IdsIn(tables: seq<Table>): set<FieldId> {
    set t, f | t in tables && f in t.fields :: f.id
  }

  /** Tables and fields are listed once, and no two tables share a field. */
  ghost predicate Unique(tables: seq<Table>) {
    && (forall i, j :: 0 <= i < j < |tables| ==> tables[i].id != tables[j].id)
    && (forall t :: t in tables ==> forall i, j :: 0 <= i < j < |t.fields| ==> t.fields[i].id != t.fields[j].id)
    && (forall t, u, f, g :: t in tables && u in tables && t.id != u.id && f in t.fields && g in u.fields ==> f.id != g.id)
  }

  lemma UniqueRest(tables: seq<Table>)
    requires Unique(tables) && tables != []
    ensures Unique(tables[1..])
    ensures forall i, j :: 0 <= i < j < |tables[0].fields| ==> tables[0].fields[i].id != tables[0].fields[j].id
    ensures IdSet(tables[0].fields) !! IdsIn(tables[1..])
  {
    var first, rest := tables[0], tables[1..];
    assert forall t :: t in rest ==> t in tables;
    assert first in tables;
    forall u, f, g | u in rest && f in first.fields && g in u.fields
      ensures f.id != g.id
    {
      var j :| 0 <= j < |rest| && rest[j] == u;
      assert tables[0].id != tables[j + 1].id;
    }
  }

  /** Fields that are unique across tables are counted by their identities. */
  lemma {:induction false} FieldsCounted(tables: seq<Table>)
    requires Unique(tables)
    ensures FieldCount(tables) == |IdsIn(tables)|
    decreases |tables|
  {
    hide Unique;
    if tables == [] {
      assert IdsIn(tables) == {};
    } else {
      UniqueRest(tables);
      FieldsCounted(tables[1..]);
      IdsCounted(tables[0].fields);
      FirstIds(tables);
    }
  }

  lemma FirstIds(tables: seq<Table>)
    requires tables != []
    ensures IdsIn(tables) == IdSet(tables[0].fields) + IdsIn(tables[1..])
  {
    var own := IdSet(tables[0].fields);
    var rest := tables[1..];
    assert tables == [tables[0]] + rest;
    forall x
      ensures x in IdsIn(tables) <==> x in own + IdsIn(rest)
    {
      if x in IdsIn(tables) {
        var t, f :| t in tables && f in t.fields && f.id == x;
        assert t == tables[0] || t in rest;
      }
      if x in IdsIn(rest) {
        var t, f :| t in rest && f in t.fields && f.id == x;
        assert t in tables;
      }
    }
  }

  lemma IdsArranged(d: Spec)
    ensures IdsIn(Arranged(d).tables) == FieldIds(d)
  {
    hide Arranged, Sort;
    var a := Arranged(d);
    forall x
      ensures x in IdsIn(a.tables) <==> x in FieldIds(d)
    {
      if x in IdsIn(a.tables) {
        var t, f :| t in a.tables && f in t.fields && f.id == x;
        DeclaresArranged(d, t.id, f);
        assert Declares(a, t.id, f);
        var u :| u in d.tables && u.id == t.id && f in u.fields;
      }
      if x in FieldIds(d) {
        var u, f :| u in d.tables && f in u.fields && f.id == x;
        DeclaresArranged(d, u.id, f);
        assert Declares(d, u.id, f);
        var t :| t in a.tables && t.id == u.id && f in t.fields;
      }
    }
  }

  lemma FindsTable(tables: seq<Table>, id: TableId)
    ensures FindTable(tables, id).Some? <==> exists u :: u in tables && u.id == id
  {
    if u :| u in tables && u.id == id {
      var i :| 0 <= i < |tables| && tables[i] == u;
    }
  }

  /** The tables of the arrangement: as many, as distinct, and with the same fields. */
  lemma TablesOrdered(d: Spec)
    ensures var a := Arranged(d);
            && |a.tables| == |d.tables|
            && (StrictlySorted(TableKey, a.tables) <==> forall i, j :: 0 <= i < j < |d.tables| ==> d.tables[i].id != d.tables[j].id)
            && ((forall t :: t in a.tables ==> |t.fields| <= 256 && StrictlySorted(FieldKey, t.fields)) <==>
                forall t :: t in d.tables ==> |t.fields| <= 256 && forall i, j :: 0 <= i < j < |t.fields| ==> t.fields[i].id != t.fields[j].id)
  {
    hide Sort, StrictlySorted, Arranged;
    var a := Arranged(d);
    TablesSorted(d);
    forall u
      ensures |WithSortedFields(u).fields| == |u.fields|
      ensures StrictlySorted(FieldKey, WithSortedFields(u).fields) <==> forall i, j :: 0 <= i < j < |u.fields| ==> u.fields[i].id != u.fields[j].id
    {
      SortLength(FieldKey, u.fields);
      SortStrict(FieldKey, u.fields);
      assert forall i :: 0 <= i < |u.fields| ==> FieldKey(u.fields[i]) == Key(0, u.fields[i].id);
    }
    forall t
      ensures t in a.tables <==> exists u :: u in d.tables && t == WithSortedFields(u)
    {
      TableArranged(d, t);
    }
    forall u | u in d.tables
      ensures WithSortedFields(u) in a.tables
    {
      TableArranged(d, WithSortedFields(u));
    }
  }

  lemma TablesSorted(d: Spec)
    ensures var a := Arranged(d);
            && |a.tables| == |d.tables|
            && (StrictlySorted(TableKey, a.tables) <==> forall i, j :: 0 <= i < j < |d.tables| ==> d.tables[i].id != d.tables[j].id)
  {
    hide Sort, StrictlySorted;
    KeysKept();
    MapKeepsOrder(TableKey, WithSortedFields, Sort(TableKey, d.tables));
    SortStrict(TableKey, d.tables);
    SortLength(TableKey, d.tables);
    assert forall i :: 0 <= i < |d.tables| ==> TableKey(d.tables[i]) == Key(0, d.tables[i].id);
  }

  lemma IdArranged(d: Spec, id: TableId)
    ensures HasTable(Arranged(d), id) <==> HasTable(d, id)
  {
    hide Arranged, Sort;
    if t :| t in Arranged(d).tables && t.id == id {
      TableArranged(d, t);
    }
    if u :| u in d.tables && u.id == id {
      TableArranged(d, WithSortedFields(u));
    }
  }

  ghost predicate FieldsDiffer(tables: seq<Table>) {
    forall t, u, f, g :: t in tables && u in tables && t.id != u.id && f in t.fields && g in u.fields ==> f.id != g.id
  }

  lemma ApartDiffer(d: Spec)
    requires FieldsApart(d)
    ensures FieldsDiffer(d.tables)
  {
    forall t, u, f, g | t in d.tables && u in d.tables && t.id != u.id && f in t.fields && g in u.fields
      ensures f.id != g.id
    {
      assert Declares(d, t.id, f) && Declares(d, u.id, g);
    }
  }

  lemma DifferApart(d: Spec)
    requires FieldsDiffer(d.tables)
    ensures FieldsApart(d)
  {
    forall t, u, f, g | Declares(d, t, f) && Declares(d, u, g) && f.id == g.id
      ensures t == u
    {
      var x :| x in d.tables && x.id == t && f in x.fields;
      var y :| y in d.tables && y.id == u && g in y.fields;
      Differ(d.tables, x, y, f, g);
    }
  }

  lemma Differ(tables: seq<Table>, t: Table, u: Table, f: Field, g: Field)
    requires FieldsDiffer(tables) && t in tables && u in tables && f in t.fields && g in u.fields && f.id == g.id
    ensures t.id == u.id
  {
  }

  lemma KnownMeans(d: Spec)
    ensures TargetsKnown(d) <==> forall t, f :: t in d.tables && f in t.fields && f.fieldType.RefType? ==> FindTable(d.tables, f.fieldType.target).Some?
  {
    hide FindTable;
    forall id
      ensures FindTable(d.tables, id).Some? <==> HasTable(d, id)
    {
      FindsTable(d.tables, id);
    }
    if TargetsKnown(d) {
      forall t, f | t in d.tables && f in t.fields && f.fieldType.RefType?
        ensures FindTable(d.tables, f.fieldType.target).Some?
      {
        assert Declares(d, t.id, f);
      }
    }
  }

  lemma MeetingArranged(d: Spec)
    ensures FieldsApart(Arranged(d)) <==> FieldsApart(d)
    ensures TargetsKnown(Arranged(d)) <==> TargetsKnown(d)
  {
    hide Arranged, Declares, HasTable;
    forall t, f
      ensures Declares(Arranged(d), t, f) <==> Declares(d, t, f)
    {
      DeclaresArranged(d, t, f);
    }
    forall id
      ensures HasTable(Arranged(d), id) <==> HasTable(d, id)
    {
      IdArranged(d, id);
    }
  }

  /** The tables check exactly when they keep their rules. */
  lemma TablesExactly(d: Spec)
    ensures TablesFit(Arranged(d).tables) <==> TableRules(d)
  {
    hide Arranged, StrictlySorted, FieldCount, Declares, FieldsApart, TargetsKnown, FindTable, FieldsDiffer, Unique, IdsIn, FieldIds;
    var a := Arranged(d);
    TablesOrdered(d);
    MeetingArranged(d);
    if FieldsApart(a) { ApartDiffer(a); }
    if FieldsDiffer(a.tables) { DifferApart(a); }
    DifferMeans(a.tables);
    KnownMeans(a);
    IdsArranged(d);
    if StrictlySorted(TableKey, a.tables) && (forall t :: t in a.tables ==> StrictlySorted(FieldKey, t.fields)) && FieldsApart(a) {
      UniqueArranged(a.tables);
      FieldsCounted(a.tables);
    }
  }

  lemma DifferMeans(tables: seq<Table>)
    ensures FieldsDiffer(tables) <==>
              forall t, u, f, g :: t in tables && u in tables && t.id != u.id && f in t.fields && g in u.fields ==> f.id != g.id
  {
  }

  lemma UniqueArranged(tables: seq<Table>)
    requires StrictlySorted(TableKey, tables) && (forall t :: t in tables ==> StrictlySorted(FieldKey, t.fields))
    requires forall t, u, f, g :: t in tables && u in tables && t.id != u.id && f in t.fields && g in u.fields ==> f.id != g.id
    ensures Unique(tables)
  {
    forall i, j | 0 <= i < j < |tables|
      ensures tables[i].id != tables[j].id
    {
      assert KeyLess(TableKey(tables[i]), TableKey(tables[j]));
    }
    forall t | t in tables
      ensures forall i, j :: 0 <= i < j < |t.fields| ==> t.fields[i].id != t.fields[j].id
    {
      assert forall i, j :: 0 <= i < j < |t.fields| ==> KeyLess(FieldKey(t.fields[i]), FieldKey(t.fields[j]));
    }
  }

  // ------------------------------------------------------------ lookups in the arrangement

  lemma TypeArranged(d: Spec, table: TableId, id: FieldId, t: FieldType)
    requires TablesFit(Arranged(d).tables)
    ensures TypeOf(Arranged(d), table, id) == Some(t) <==> DeclaredAs(d, table, id, t)
  {
    hide Arranged, TablesFit, Declares, FieldOf;
    var a := Arranged(d);
    if TypeOf(a, table, id) == Some(t) {
      var f := FieldOf(a, table, id).value;
      FieldNamed(a, table, id);
      FieldHeld(a, table, f);
      DeclaresArranged(d, table, f);
    }
    if f :| Declares(d, table, f) && f.id == id && f.fieldType == t {
      DeclaresArranged(d, table, f);
      FieldHeld(a, table, f);
    }
  }

  lemma FieldNamed(spec: Spec, table: TableId, id: FieldId)
    ensures FieldOf(spec, table, id).Some? ==> FieldOf(spec, table, id).value.id == id
  {
  }

  lemma SuitsMeans(c: Constraint, t: FieldType)
    ensures SupportsType(c, t) <==> RuleSuits(c, t)
  {
  }

  // ------------------------------------------------------------ constraints, captures, policies

  lemma ConstraintsExactly(d: Spec)
    requires TablesFit(Arranged(d).tables)
    ensures ConstraintsChecked(Arranged(d)) <==> ConstraintRules(d)
  {
    hide TablesFit, Sort, StrictlySorted, DeclaredAs, TypeOf, SupportsType, RuleSuits, Map;
    var a := Arranged(d);
    SortLength(ConstraintKey, d.constraints);
    SortStrict(ConstraintKey, d.constraints);
    assert forall i :: 0 <= i < |d.constraints| ==> ConstraintKey(d.constraints[i]) == Key(0, d.constraints[i].id);
    forall c
      ensures c in a.constraints <==> c in d.constraints
    {
      SortedIn(ConstraintKey, d.constraints, c);
    }
    forall c: FieldConstraint
      ensures TypeOf(a, c.table, c.field).Some? && SupportsType(c.constraint, TypeOf(a, c.table, c.field).value)
              <==> exists t :: DeclaredAs(d, c.table, c.field, t) && RuleSuits(c.constraint, t)
    {
      if TypeOf(a, c.table, c.field).Some? {
        var t := TypeOf(a, c.table, c.field).value;
        TypeArranged(d, c.table, c.field, t);
        SuitsMeans(c.constraint, t);
      }
      if t :| DeclaredAs(d, c.table, c.field, t) && RuleSuits(c.constraint, t) {
        TypeArranged(d, c.table, c.field, t);
        SuitsMeans(c.constraint, t);
      }
    }
  }

  lemma CapturedArranged(d: Spec, table: TableId, f: FieldId)
    ensures IsCaptured(Arranged(d), table, f) <==> exists o :: o in d.captures && o.lineTable == table && o.capturedPrice == f
  {
    hide Sort, Map;
    var all := Arranged(d).captures;
    if i :| 0 <= i < |all| && all[i].lineTable == table && all[i].capturedPrice == f {
      SortedIn(CaptureKey, d.captures, all[i]);
    }
    if o :| o in d.captures && o.lineTable == table && o.capturedPrice == f {
      SortedIn(CaptureKey, d.captures, o);
      var i :| 0 <= i < |all| && all[i] == o;
    }
  }

  lemma CaptureExactly(d: Spec, c: CaptureRule)
    requires TablesFit(Arranged(d).tables)
    ensures CaptureChecked(Arranged(d), c) <==> CopiesMoney(d, c)
  {
    hide TablesFit, Arranged, DeclaredAs, TypeOf, IsCaptured;
    var a := Arranged(d);
    TypeArranged(d, c.lineTable, c.capturedPrice, MoneyType);
    match TypeOf(a, c.lineTable, c.productRef) {
      case Some(RefType(target)) =>
        TypeArranged(d, c.lineTable, c.productRef, RefType(target));
        TypeArranged(d, target, c.productPrice, MoneyType);
        CapturedArranged(d, target, c.productPrice);
      case _ =>
    }
    if target :| DeclaredAs(d, c.lineTable, c.productRef, RefType(target)) && DeclaredAs(d, target, c.productPrice, MoneyType)
                 && forall o :: o in d.captures ==> o.lineTable != target || o.capturedPrice != c.productPrice {
      TypeArranged(d, c.lineTable, c.productRef, RefType(target));
    }
  }

  lemma CapturesExactly(d: Spec)
    requires TablesFit(Arranged(d).tables)
    ensures CapturesChecked(Arranged(d)) <==> CaptureRules(d)
  {
    hide TablesFit, Sort, StrictlySorted, CaptureChecked, CopiesMoney, Map;
    var a := Arranged(d);
    SortLength(CaptureKey, d.captures);
    SortStrict(CaptureKey, d.captures);
    assert forall i :: 0 <= i < |d.captures| ==> CaptureKey(d.captures[i]) == Key(d.captures[i].lineTable, d.captures[i].capturedPrice);
    forall c
      ensures c in a.captures <==> c in d.captures
      ensures CaptureChecked(a, c) <==> CopiesMoney(d, c)
    {
      SortedIn(CaptureKey, d.captures, c);
      CaptureExactly(d, c);
    }
  }

  lemma PolicyExactly(d: Spec, p: Policy)
    requires TablesFit(Arranged(d).tables)
    ensures PolicyChecked(Arranged(d), p) <==> PolicyRule(d, p)
  {
    hide TablesFit, Arranged, DeclaredAs, TypeOf;
    var a := Arranged(d);
    TypeArranged(d, p.table, p.ownerField, TextType);
    forall g
      ensures TypeOf(a, p.table, g).Some? && !TypeOf(a, p.table, g).value.RefType? <==> exists t :: DeclaredAs(d, p.table, g, t) && !t.RefType?
    {
      if TypeOf(a, p.table, g).Some? {
        TypeArranged(d, p.table, g, TypeOf(a, p.table, g).value);
      }
      if t :| DeclaredAs(d, p.table, g, t) && !t.RefType? {
        TypeArranged(d, p.table, g, t);
      }
    }
  }

  /** Entries listed once and one for each table, before and after sorting. */
  lemma OncePerTable<T>(key: T -> Key, table: T -> Key, s: seq<T>)
    ensures StrictlySorted(key, Sort(key, s)) && (forall x, y :: x in Sort(key, s) && y in Sort(key, s) && table(x) == table(y) ==> x == y)
            <==> DistinctKeys(key, s) && DistinctKeys(table, s)
  {
    hide Sort, StrictlySorted, DistinctKeys;
    SortStrict(key, s);
    forall x
      ensures x in Sort(key, s) <==> x in s
    {
      SortedIn(key, s, x);
    }
    if StrictlySorted(key, Sort(key, s)) && forall x, y :: x in Sort(key, s) && y in Sort(key, s) && table(x) == table(y) ==> x == y {
      forall x, y | x in s && y in s && table(x) == table(y)
        ensures x == y
      {
        assert x in Sort(key, s) && y in Sort(key, s);
      }
    }
    OnePerTable(table, s);
    if DistinctKeys(key, s) && forall x, y :: x in s && y in s && table(x) == table(y) ==> x == y {
      DistinctFrom(key, table, s);
    }
  }

  lemma PoliciesExactly(d: Spec)
    requires TablesFit(Arranged(d).tables)
    ensures PoliciesChecked(Arranged(d)) <==> PolicyRules(d)
  {
    hide TablesFit, Sort, StrictlySorted, PolicyChecked, PolicyRule, Map;
    var a := Arranged(d);
    SortLength(PolicyKey, d.policies);
    OncePerTable(PolicyKey, PolicyTable, d.policies);
    assert forall i :: 0 <= i < |d.policies| ==> PolicyKey(d.policies[i]) == Key(0, d.policies[i].id) && PolicyTable(d.policies[i]) == Key(0, d.policies[i].table);
    forall p
      ensures p in a.policies <==> p in d.policies
      ensures PolicyChecked(a, p) <==> PolicyRule(d, p)
    {
      SortedIn(PolicyKey, d.policies, p);
      PolicyExactly(d, p);
    }
    forall p, q: Policy
      ensures PolicyTable(p) == PolicyTable(q) <==> p.table == q.table
    {
    }
  }

  // ------------------------------------------------------------ machines

  lemma StateMeans(s: string)
    ensures (s != "" && TextBytes(s) <= 64 && forall i :: 0 <= i < |s| ==> !IsControl(s[i]))
            <==> 1 <= |s| && TextBytes(s) <= 64 && forall c :: c in s ==> !(c as int <= 31) && !(127 <= c as int && c as int <= 159)
  {
    hide TextBytes;
    if forall i :: 0 <= i < |s| ==> !IsControl(s[i]) {
      forall c | c in s
        ensures !(c as int <= 31) && !(127 <= c as int && c as int <= 159)
      {
        var i :| 0 <= i < |s| && s[i] == c;
        assert !IsControl(s[i]);
      }
    }
    if forall c :: c in s ==> !(c as int <= 31) && !(127 <= c as int && c as int <= 159) {
      forall i | 0 <= i < |s|
        ensures !IsControl(s[i])
      {
        assert s[i] in s;
      }
    }
  }

  lemma StateFieldMeans(d: Spec, m: StateMachine)
    requires TablesFit(Arranged(d).tables)
    ensures var f := FieldOf(Arranged(d), m.table, m.stateField);
            (f.Some? && f.value.fieldType.TextType? && f.value.required)
            <==> exists g :: Declares(d, m.table, g) && g.id == m.stateField && g.fieldType == TextType && g.required
  {
    hide TablesFit, Arranged, Declares, FieldOf;
    var a := Arranged(d);
    if FieldOf(a, m.table, m.stateField).Some? {
      var f := FieldOf(a, m.table, m.stateField).value;
      FieldNamed(a, m.table, m.stateField);
      FieldHeld(a, m.table, f);
      DeclaresArranged(d, m.table, f);
    }
    if g :| Declares(d, m.table, g) && g.id == m.stateField && g.fieldType == TextType && g.required {
      DeclaresArranged(d, m.table, g);
      FieldHeld(a, m.table, g);
    }
  }

  lemma MachineExactly(d: Spec, m: StateMachine)
    requires TablesFit(Arranged(d).tables)
    ensures MachineChecked(Arranged(d), m) <==> MachineRule(d, m)
  {
    hide TablesFit, Sort, Map, Declares, FieldOf, TextBytes, Accepts, Obeys, IsControl;
    var a := Arranged(d);
    StateFieldMeans(d, m);
    forall s: string
      ensures (s != "" && TextBytes(s) <= 64 && forall i :: 0 <= i < |s| ==> !IsControl(s[i]))
              <==> 1 <= |s| && TextBytes(s) <= 64 && forall c :: c in s ==> !(c as int <= 31) && !(127 <= c as int && c as int <= 159)
    {
      StateMeans(s);
    }
    forall c
      ensures c in a.constraints <==> c in d.constraints
    {
      SortedIn(ConstraintKey, d.constraints, c);
    }
    forall c: FieldConstraint, s: string
      ensures Accepts(c.constraint, Text(s)) <==> Obeys(c.constraint, Text(s))
    {
      RuleMeans(c.constraint, Text(s));
    }
  }

  lemma MachinesExactly(d: Spec)
    requires TablesFit(Arranged(d).tables)
    ensures MachinesChecked(Arranged(d)) <==> MachineRules(d)
  {
    hide TablesFit, Sort, StrictlySorted, MachineChecked, MachineRule, Map;
    var a := Arranged(d);
    SortLength(MachineKey, d.machines);
    OncePerTable(MachineKey, MachineTable, d.machines);
    assert forall i :: 0 <= i < |d.machines| ==> MachineKey(d.machines[i]) == Key(0, d.machines[i].id) && MachineTable(d.machines[i]) == Key(0, d.machines[i].table);
    forall m
      ensures m in a.machines <==> m in d.machines
      ensures MachineChecked(a, m) <==> MachineRule(d, m)
    {
      SortedIn(MachineKey, d.machines, m);
      MachineExactly(d, m);
    }
    forall m, n: StateMachine
      ensures MachineTable(m) == MachineTable(n) <==> m.table == n.table
    {
    }
  }

  // ------------------------------------------------------------ commands

  lemma InputExactly(d: Spec, m: StateMachine, p: Policy, input: CommandInput)
    requires TablesFit(Arranged(d).tables)
    ensures InputChecked(Arranged(d), m, p, input) <==> InputRule(d, m, p, input)
  {
    hide TablesFit, Arranged, DeclaredAs, TypeOf, SupportsType, RuleSuits;
    var a := Arranged(d);
    PathsMean(d, m.table, input.field);
    if TypeOf(a, m.table, input.field).Some? {
      TypeArranged(d, m.table, input.field, TypeOf(a, m.table, input.field).value);
      AllSuit(input.constraints, TypeOf(a, m.table, input.field).value);
    }
    if t :| DeclaredAs(d, m.table, input.field, t) && !t.RefType? && forall k :: k in input.constraints ==> RuleSuits(k, t) {
      TypeArranged(d, m.table, input.field, t);
    }
  }

  lemma AllSuit(rules: seq<Constraint>, t: FieldType)
    ensures (forall i :: 0 <= i < |rules| ==> SupportsType(rules[i], t)) <==> forall k :: k in rules ==> RuleSuits(k, t)
  {
    hide SupportsType, RuleSuits;
    forall k
      ensures SupportsType(k, t) <==> RuleSuits(k, t)
    {
      SuitsMeans(k, t);
    }
    if forall i :: 0 <= i < |rules| ==> SupportsType(rules[i], t) {
      forall k | k in rules
        ensures RuleSuits(k, t)
      {
        var i :| 0 <= i < |rules| && rules[i] == k;
        assert SupportsType(rules[i], t);
      }
    }
  }

  lemma PathsMean(d: Spec, table: TableId, f: FieldId)
    ensures (forall i :: 0 <= i < |Arranged(d).captures| && Arranged(d).captures[i].lineTable == table
               ==> Arranged(d).captures[i].capturedPrice != f && Arranged(d).captures[i].productRef != f)
            <==> forall o :: o in d.captures && o.lineTable == table ==> o.capturedPrice != f && o.productRef != f
  {
    hide Sort, Map;
    var all := Arranged(d).captures;
    forall o
      ensures o in all <==> o in d.captures
    {
      SortedIn(CaptureKey, d.captures, o);
    }
    if forall i :: 0 <= i < |all| && all[i].lineTable == table ==> all[i].capturedPrice != f && all[i].productRef != f {
      forall o | o in d.captures && o.lineTable == table
        ensures o.capturedPrice != f && o.productRef != f
      {
        var i :| 0 <= i < |all| && all[i] == o;
      }
    }
  }

  lemma GuardExactly(d: Spec, m: StateMachine, g: Guard)
    requires TablesFit(Arranged(d).tables)
    ensures GuardChecked(Arranged(d), m, g) <==> GuardRule(d, m, g)
  {
    hide TablesFit, Arranged, DeclaredAs, TypeOf;
    var a := Arranged(d);
    if TypeOf(a, m.table, g.field).Some? {
      TypeArranged(d, m.table, g.field, TypeOf(a, m.table, g.field).value);
    }
    if t :| DeclaredAs(d, m.table, g.field, t) && !t.RefType? && (g.equals == Blank || g.equals == Null || ValueSuits(t, g.equals)) {
      TypeArranged(d, m.table, g.field, t);
    }
  }

  /** What a command asks of the machine and the policy it is bound to, as the compiler asks it. */
  ghost predicate BoundChecked(spec: Spec, c: Command, m: StateMachine, p: Policy) {
    && c.revision > 0
    && |c.inputs| <= MAX_COMMAND_INPUTS && |c.guards| <= MAX_GUARDS && |c.events| <= MAX_EVENTS
    && p.table == m.table && p.ownerField != m.stateField
    && c.fromState in m.states && c.toState in m.states && c.fromState !in m.terminal && c.fromState != c.toState
    && StrictlySorted(InputKey, c.inputs)
    && (forall i :: i in c.inputs ==> InputChecked(spec, m, p, i))
    && StrictlySorted(GuardKey, c.guards)
    && (forall g :: g in c.guards ==> GuardChecked(spec, m, g))
    && StrictlySorted(EventKey, c.events)
    && (forall e :: e in c.events ==> |e.fields| <= MAX_COMMAND_INPUTS && e.fields <= p.readFields)
  }

  lemma CommandMeans(spec: Spec, c: Command)
    ensures CommandChecked(spec, c) <==>
              && FindMachine(spec.machines, c.machine).Some? && FindPolicy(spec.policies, c.policy).Some?
              && BoundChecked(spec, c, FindMachine(spec.machines, c.machine).value, FindPolicy(spec.policies, c.policy).value)
  {
    hide FindMachine, FindPolicy, InputChecked, GuardChecked, StrictlySorted;
  }

  lemma BoundExactly(d: Spec, b: Command, m: StateMachine, p: Policy)
    requires TablesFit(Arranged(d).tables)
    ensures BoundChecked(Arranged(d), WithSortedParts(b), m, p) <==> CommandRule(d, b, m, p)
  {
    hide TablesFit, Arranged, Sort, StrictlySorted, InputChecked, InputRule, GuardChecked, GuardRule;
    SortLength(InputKey, b.inputs);
    SortLength(GuardKey, b.guards);
    SortLength(EventKey, b.events);
    PartsDistinct(b);
    forall i
      ensures i in WithSortedParts(b).inputs <==> i in b.inputs
      ensures InputChecked(Arranged(d), m, p, i) <==> InputRule(d, m, p, i)
    {
      SortedIn(InputKey, b.inputs, i);
      InputExactly(d, m, p, i);
    }
    forall g
      ensures g in WithSortedParts(b).guards <==> g in b.guards
      ensures GuardChecked(Arranged(d), m, g) <==> GuardRule(d, m, g)
    {
      SortedIn(GuardKey, b.guards, g);
      GuardExactly(d, m, g);
    }
    forall e
      ensures e in WithSortedParts(b).events <==> e in b.events
    {
      SortedIn(EventKey, b.events, e);
    }
    forall e: EventIntent
      ensures e.fields <= p.readFields <==> forall f :: f in e.fields ==> f in p.readFields
    {
      Within(e.fields, p.readFields);
    }
    var c := WithSortedParts(b);
    assert (forall i :: i in c.inputs ==> InputChecked(Arranged(d), m, p, i)) <==> (forall i :: i in b.inputs ==> InputRule(d, m, p, i));
    assert (forall g :: g in c.guards ==> GuardChecked(Arranged(d), m, g)) <==> (forall g :: g in b.guards ==> GuardRule(d, m, g));
    assert (forall e :: e in c.events ==> |e.fields| <= 64 && e.fields <= p.readFields)
           <==> (forall e :: e in b.events ==> |e.fields| <= 64 && forall f :: f in e.fields ==> f in p.readFields);
  }

  lemma Within(fields: set<FieldId>, all: set<FieldId>)
    ensures fields <= all <==> forall f :: f in fields ==> f in all
  {
    if forall f :: f in fields ==> f in all {
      assert fields <= all;
    }
    if fields <= all {
      forall f | f in fields
        ensures f in all
      {
      }
    }
  }

  lemma PartsDistinct(b: Command)
    ensures StrictlySorted(InputKey, Sort(InputKey, b.inputs)) <==> forall i, j :: 0 <= i < j < |b.inputs| ==> b.inputs[i].field != b.inputs[j].field
    ensures StrictlySorted(GuardKey, Sort(GuardKey, b.guards)) <==> forall i, j :: 0 <= i < j < |b.guards| ==> b.guards[i].field != b.guards[j].field
    ensures StrictlySorted(EventKey, Sort(EventKey, b.events)) <==> forall i, j :: 0 <= i < j < |b.events| ==> b.events[i].id != b.events[j].id
  {
    hide Sort, StrictlySorted;
    SortStrict(InputKey, b.inputs);
    SortStrict(GuardKey, b.guards);
    SortStrict(EventKey, b.events);
    assert forall i :: 0 <= i < |b.inputs| ==> InputKey(b.inputs[i]) == Key(0, b.inputs[i].field);
    assert forall i :: 0 <= i < |b.guards| ==> GuardKey(b.guards[i]) == Key(0, b.guards[i].field);
    assert forall i :: 0 <= i < |b.events| ==> EventKey(b.events[i]) == Key(0, b.events[i].id);
  }

  lemma {:induction false} MachineListed(machines: seq<StateMachine>, m: StateMachine)
    requires DistinctKeys(MachineKey, machines)
    ensures FindMachine(machines, m.id) == Some(m) <==> m in machines
  {
    if machines != [] {
      if machines[0].id == m.id {
        forall i | 0 < i < |machines|
          ensures machines[i] != m
        {
          assert MachineKey(machines[0]) != MachineKey(machines[i]);
        }
      } else {
        MachineListed(machines[1..], m);
      }
    }
  }

  lemma {:induction false} PolicyListed(policies: seq<Policy>, p: Policy)
    requires DistinctKeys(PolicyKey, policies)
    ensures FindPolicy(policies, p.id) == Some(p) <==> p in policies
  {
    if policies != [] {
      if policies[0].id == p.id {
        forall i | 0 < i < |policies|
          ensures policies[i] != p
        {
          assert PolicyKey(policies[0]) != PolicyKey(policies[i]);
        }
      } else {
        PolicyListed(policies[1..], p);
      }
    }
  }

  lemma CommandExactly(d: Spec, b: Command)
    requires TablesFit(Arranged(d).tables) && MachinesChecked(Arranged(d)) && PoliciesChecked(Arranged(d))
    ensures CommandChecked(Arranged(d), WithSortedParts(b)) <==>
              exists m, p :: m in d.machines && m.id == b.machine && p in d.policies && p.id == b.policy && CommandRule(d, b, m, p)
  {
    hide TablesFit, Sort, Map, StrictlySorted, CommandChecked, CommandRule, BoundChecked, MachineChecked, PolicyChecked, FindMachine, FindPolicy;
    var a := Arranged(d);
    var c := WithSortedParts(b);
    CommandMeans(a, c);
    SortedStrict(MachineKey, a.machines);
    SortedStrict(PolicyKey, a.policies);
    if FindMachine(a.machines, c.machine).Some? && FindPolicy(a.policies, c.policy).Some? {
      var m, p := FindMachine(a.machines, c.machine).value, FindPolicy(a.policies, c.policy).value;
      SortedIn(MachineKey, d.machines, m);
      SortedIn(PolicyKey, d.policies, p);
      BoundExactly(d, b, m, p);
    }
    if m, p :| m in d.machines && m.id == b.machine && p in d.policies && p.id == b.policy && CommandRule(d, b, m, p) {
      SortedIn(MachineKey, d.machines, m);
      SortedIn(PolicyKey, d.policies, p);
      MachineListed(a.machines, m);
      PolicyListed(a.policies, p);
      BoundExactly(d, b, m, p);
    }
  }

  lemma CommandsExactly(d: Spec)
    requires TablesFit(Arranged(d).tables) && MachinesChecked(Arranged(d)) && PoliciesChecked(Arranged(d))
    ensures CommandsChecked(Arranged(d)) <==> CommandRules(d)
  {
    hide TablesFit, Arranged, StrictlySorted, CommandChecked, CommandRule, MachinesChecked, PoliciesChecked, WithSortedParts;
    var a := Arranged(d);
    CommandsOrdered(d);
    forall b
      ensures CommandChecked(a, WithSortedParts(b)) <==>
                exists m, p :: m in d.machines && m.id == b.machine && p in d.policies && p.id == b.policy && CommandRule(d, b, m, p)
    {
      CommandExactly(d, b);
    }
    forall c
      ensures c in a.commands <==> exists b :: b in d.commands && c == WithSortedParts(b)
    {
      CommandArranged(d, c);
    }
    forall b | b in d.commands
      ensures WithSortedParts(b) in a.commands
    {
      CommandArranged(d, WithSortedParts(b));
    }
  }

  lemma CommandsOrdered(d: Spec)
    ensures var a := Arranged(d);
            && |a.commands| == |d.commands|
            && (StrictlySorted(CommandKey, a.commands) <==> forall i, j :: 0 <= i < j < |d.commands| ==> d.commands[i].id != d.commands[j].id)
  {
    hide Sort, StrictlySorted;
    KeysKept();
    MapKeepsOrder(CommandKey, WithSortedParts, Sort(CommandKey, d.commands));
    SortStrict(CommandKey, d.commands);
    SortLength(CommandKey, d.commands);
    assert forall i :: 0 <= i < |d.commands| ==> CommandKey(d.commands[i]) == Key(0, d.commands[i].id);
  }

  // ------------------------------------------------------------ the compiler

  /** The compiler accepts a definition exactly when it keeps the rules. */
  lemma CompilesExactly(d: Spec)
    ensures Compiled(d).Some? <==> Rules(d)
  {
    hide Arranged, TablesFit, TableRules, ConstraintsChecked, ConstraintRules, CapturesChecked, CaptureRules, PoliciesChecked, PolicyRules,
      MachinesChecked, MachineRules, CommandsChecked, CommandRules;
    VersionKept(d);
    TablesExactly(d);
    if TablesFit(Arranged(d).tables) {
      ConstraintsExactly(d);
      CapturesExactly(d);
      PoliciesExactly(d);
      MachinesExactly(d);
      if MachinesChecked(Arranged(d)) && PoliciesChecked(Arranged(d)) {
        CommandsExactly(d);
      }
    }
  }

  /** `a` declares what `d` declares. */
  ghost predicate SameContent(d: Spec, a: Spec) {
    && a.version == d.version && a.app == d.app
    && (forall t, f :: Declares(a, t, f) <==> Declares(d, t, f))
    && (forall t, u :: t in a.tables && u in d.tables && t.id == u.id ==> multiset(t.fields) == multiset(u.fields))
    && multiset(a.captures) == multiset(d.captures) && multiset(a.policies) == multiset(d.policies)
    && multiset(a.constraints) == multiset(d.constraints) && multiset(a.machines) == multiset(d.machines)
    && (forall b :: b in d.commands ==> exists c :: c in a.commands && SameCommand(b, c))
    && (forall c :: c in a.commands ==> exists b :: b in d.commands && SameCommand(b, c))
  }

  /** Every list ascends by identity. */
  predicate Ascends(a: Spec) {
    && (forall i, j :: 0 <= i < j < |a.tables| ==> a.tables[i].id < a.tables[j].id)
    && (forall t :: t in a.tables ==> forall i, j :: 0 <= i < j < |t.fields| ==> t.fields[i].id < t.fields[j].id)
    && (forall i, j :: 0 <= i < j < |a.policies| ==> a.policies[i].id < a.policies[j].id)
    && (forall i, j :: 0 <= i < j < |a.constraints| ==> a.constraints[i].id < a.constraints[j].id)
    && (forall i, j :: 0 <= i < j < |a.machines| ==> a.machines[i].id < a.machines[j].id)
    && (forall i, j :: 0 <= i < j < |a.commands| ==> a.commands[i].id < a.commands[j].id)
  }

  /** What is compiled is the definition itself, with every list in ascending order. */
  lemma CompiledDeclares(d: Spec)
    ensures Compiled(d).Some? ==> SameContent(d, Compiled(d).value) && Ascends(Compiled(d).value)
  {
    hide Checked, Arranged, SameContent, Ascends;
    if Checked(Arranged(d)) {
      CheckedAscends(Arranged(d));
      ArrangedDeclares(d);
    }
  }

  lemma ArrangedDeclares(d: Spec)
    requires Checked(Arranged(d))
    ensures SameContent(d, Arranged(d))
  {
    var a := Arranged(d);
    hide Checked, Sort, Map, Declares, SameCommand;
    forall t, f
      ensures Declares(a, t, f) <==> Declares(d, t, f)
    {
      DeclaresArranged(d, t, f);
    }
    SortPermutes(CaptureKey, d.captures);
    SortPermutes(PolicyKey, d.policies);
    SortPermutes(ConstraintKey, d.constraints);
    SortPermutes(MachineKey, d.machines);
    forall t, u | t in a.tables && u in d.tables && t.id == u.id
      ensures multiset(t.fields) == multiset(u.fields)
    {
      SameFields(d, t, u);
    }
    forall b | b in d.commands
      ensures exists c :: c in a.commands && SameCommand(b, c)
    {
      CommandArranged(d, WithSortedParts(b));
      PartsSorted(b);
    }
    forall c | c in a.commands
      ensures exists b :: b in d.commands && SameCommand(b, c)
    {
      CommandArranged(d, c);
      var b :| b in d.commands && c == WithSortedParts(b);
      PartsSorted(b);
    }
  }

  /** The same command, with its lists in some order. */
  ghost predicate SameCommand(b: Command, c: Command) {
    && c == b.(inputs := c.inputs, guards := c.guards, events := c.events)
    && multiset(c.inputs) == multiset(b.inputs) && multiset(c.guards) == multiset(b.guards) && multiset(c.events) == multiset(b.events)
  }

  lemma PartsSorted(b: Command)
    ensures SameCommand(b, WithSortedParts(b))
  {
    hide Sort;
    SortPermutes(InputKey, b.inputs);
    SortPermutes(GuardKey, b.guards);
    SortPermutes(EventKey, b.events);
  }

  lemma SameFields(d: Spec, t: Table, u: Table)
    requires Checked(Arranged(d)) && t in Arranged(d).tables && u in d.tables && t.id == u.id
    ensures multiset(t.fields) == multiset(u.fields)
  {
    hide Arranged, Sort, ConstraintsChecked, CapturesChecked, PoliciesChecked, MachinesChecked, CommandsChecked, VersionChecked, FindTable;
    TableArranged(d, WithSortedFields(u));
    TableHeld(Arranged(d), t);
    TableHeld(Arranged(d), WithSortedFields(u));
    SortPermutes(FieldKey, u.fields);
  }

  lemma CheckedAscends(a: Spec)
    requires Checked(a)
    ensures Ascends(a)
  {
    hide Checked;
    CheckedSorted(a);
    forall i, j | 0 <= i < j < |a.tables|
      ensures a.tables[i].id < a.tables[j].id
    {
      assert KeyLess(TableKey(a.tables[i]), TableKey(a.tables[j]));
    }
    forall t | t in a.tables
      ensures forall i, j :: 0 <= i < j < |t.fields| ==> t.fields[i].id < t.fields[j].id
    {
      var k :| 0 <= k < |a.tables| && a.tables[k] == t;
      assert StrictlySorted(FieldKey, a.tables[k].fields);
      assert forall i, j :: 0 <= i < j < |t.fields| ==> KeyLess(FieldKey(t.fields[i]), FieldKey(t.fields[j]));
    }
    assert forall i, j :: 0 <= i < j < |a.policies| ==> KeyLess(PolicyKey(a.policies[i]), PolicyKey(a.policies[j]));
    assert forall i, j :: 0 <= i < j < |a.constraints| ==> KeyLess(ConstraintKey(a.constraints[i]), ConstraintKey(a.constraints[j]));
    assert forall i, j :: 0 <= i < j < |a.machines| ==> KeyLess(MachineKey(a.machines[i]), MachineKey(a.machines[j]));
    assert forall i, j :: 0 <= i < j < |a.commands| ==> KeyLess(CommandKey(a.commands[i]), CommandKey(a.commands[j]));
  }
}
