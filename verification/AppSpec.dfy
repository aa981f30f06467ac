/**
 The portable definition language: typed values, tables, constraints, capture rules, owner and role
 policies, state machines and commands. Labels carry no meaning and are dropped; identities are
 numbered, because only equality and order of identities matter to the kernel.
 */
module AppSpec {
  import opened Wrappers
  import opened Sorting

  const I64_MIN := -0x8000_0000_0000_0000
  const I64_MAX := 0x7fff_ffff_ffff_ffff
  const U64_MAX := 0xffff_ffff_ffff_ffff

  predicate InI64(n: int) {
    I64_MIN <= n <= I64_MAX
  }

  type i64 = n: int | InI64(n)

  const FORMAT_VERSION := 2
  const MAX_BYTES := 1_048_576
  const MAX_DEPTH := 16
  const MAX_NODES := 20_000
  const MAX_TABLES := 64
  const MAX_FIELDS_PER_TABLE := 256
  const MAX_FIELDS := 2_048
  const MAX_RECORDS := 4_096
  const MAX_TEXT_BYTES := 16_384
  const MAX_CONSTRAINTS := 256
  const MAX_STATE_MACHINES := 64
  const MAX_COMMANDS := 64
  const MAX_STATES := 64
  const MAX_COMMAND_INPUTS := 64
  const MAX_GUARDS := 32
  const MAX_EVENTS := 16
  const MAX_INPUT_CONSTRAINTS := 8
  const MAX_POLICIES := 64

  type TableId = int
  type FieldId = int
  type RecordId = int

  datatype Scope = Scope(tenant: int, app: int)

  datatype RecordRef = RecordRef(scope: Scope, table: TableId, record: RecordId)

  datatype Value =
    | Blank
    | Null
    | Text(text: string)
    | Integer(integer: i64)
    | Bool(flag: bool)
    | Money(money: i64)
    | Ref(ref: RecordRef)

  predicate Missing(v: Value) {
    v.Blank? || v.Null?
  }

  type Values = map<FieldId, Value>

  datatype RawRecord = RawRecord(scope: Scope, id: RecordId, table: TableId, values: Values)

  function RecordKey(r: RawRecord): Key {
    Key(r.table, r.id)
  }

  datatype FieldType = TextType | IntegerType | BoolType | MoneyType | RefType(target: TableId)

  datatype Field = Field(id: FieldId, required: bool, fieldType: FieldType)

  datatype Table = Table(id: TableId, fields: seq<Field>)

  datatype CaptureRule = CaptureRule(
    lineTable: TableId, productRef: FieldId, productPrice: FieldId, capturedPrice: FieldId)

  datatype Constraint =
    | NonEmpty
    | TextLength(minLength: nat, maxLength: nat)
    | NumericRange(min: i64, max: i64)

  datatype FieldConstraint = FieldConstraint(id: int, table: TableId, field: FieldId, constraint: Constraint)

  datatype Policy = Policy(
    id: int, revision: nat, table: TableId, ownerField: FieldId, readFields: set<FieldId>,
    readRoles: set<int>, writeRoles: set<int>, submitRoles: set<int>)

  datatype StateMachine = StateMachine(
    id: int, table: TableId, stateField: FieldId, states: set<string>, terminal: set<string>)

  datatype CommandInput = CommandInput(field: FieldId, required: bool, constraints: seq<Constraint>)

  datatype Guard = Guard(field: FieldId, equals: Value)

  datatype EventIntent = EventIntent(id: int, fields: set<FieldId>)

  datatype Command = Command(
    id: int, revision: nat, policy: int, machine: int, fromState: string, toState: string,
    inputs: seq<CommandInput>, guards: seq<Guard>, events: seq<EventIntent>)

  datatype Spec = Spec(
    version: nat, app: int, tables: seq<Table>, captures: seq<CaptureRule>, policies: seq<Policy>,
    constraints: seq<FieldConstraint>, machines: seq<StateMachine>, commands: seq<Command>)

  // ------------------------------------------------------------ text measures

  function CharBytes(c: char): nat {
    if c as int < 0x80 then 1 else if c as int < 0x800 then 2 else if c as int < 0x1_0000 then 3 else 4
  }

  /** The length of a text in UTF-8, which is what every byte limit counts. */
  function TextBytes(s: string): nat {
    if s == "" then 0 else CharBytes(s[0]) + TextBytes(s[1..])
  }

  predicate IsWhitespace(c: char) {
    var n := c as int;
    9 <= n <= 13 || n == 32 || n == 0x85 || n == 0xA0 || n == 0x1680 || 0x2000 <= n <= 0x200A
    || n == 0x2028 || n == 0x2029 || n == 0x202F || n == 0x205F || n == 0x3000
  }

  predicate IsControl(c: char) {
    var n := c as int;
    n < 32 || 127 <= n <= 159
  }

  // ------------------------------------------------------------ constraints

  predicate SupportsType(c: Constraint, t: FieldType) {
    match c
    case NonEmpty => t.TextType?
    case TextLength(lo, hi) => t.TextType? && lo <= hi <= MAX_TEXT_BYTES
    case NumericRange(lo, hi) => (t.IntegerType? || t.MoneyType?) && lo <= hi
  }

  predicate Accepts(c: Constraint, v: Value) {
    if Missing(v) then true
    else match (c, v)
      case (NonEmpty, Text(s)) => exists i :: 0 <= i < |s| && !IsWhitespace(s[i])
      case (TextLength(lo, hi), Text(s)) => lo <= |s| <= hi
      case (NumericRange(lo, hi), Integer(n)) => lo <= n <= hi
      case (NumericRange(lo, hi), Money(n)) => lo <= n <= hi
      case _ => false
  }

  // ------------------------------------------------------------ lookups (first match, as `iter().find`)

  function FindTable(tables: seq<Table>, id: TableId): (r: Option<Table>)
    ensures r.Some? ==> r.value in tables && r.value.id == id
    ensures r.None? ==> forall i :: 0 <= i < |tables| ==> tables[i].id != id
  {
    if tables == [] then None
    else if tables[0].id == id then Some(tables[0])
    else FindTable(tables[1..], id)
  }

  function FindField(fields: seq<Field>, id: FieldId): (r: Option<Field>)
    ensures r.Some? ==> r.value in fields && r.value.id == id
    ensures r.None? ==> forall i :: 0 <= i < |fields| ==> fields[i].id != id
  {
    if fields == [] then None
    else if fields[0].id == id then Some(fields[0])
    else FindField(fields[1..], id)
  }

  function FieldOf(spec: Spec, table: TableId, field: FieldId): Option<Field> {
    match FindTable(spec.tables, table)
    case None => None
    case Some(t) => FindField(t.fields, field)
  }

  function TypeOf(spec: Spec, table: TableId, field: FieldId): Option<FieldType> {
    match FieldOf(spec, table, field)
    case None => None
    case Some(f) => Some(f.fieldType)
  }

  function FindMachine(machines: seq<StateMachine>, id: int): (r: Option<StateMachine>)
    ensures r.Some? ==> r.value in machines && r.value.id == id
  {
    if machines == [] then None
    else if machines[0].id == id then Some(machines[0])
    else FindMachine(machines[1..], id)
  }

  function FindPolicy(policies: seq<Policy>, id: int): (r: Option<Policy>)
    ensures r.Some? ==> r.value in policies && r.value.id == id
  {
    if policies == [] then None
    else if policies[0].id == id then Some(policies[0])
    else FindPolicy(policies[1..], id)
  }

  function FindCommand(commands: seq<Command>, id: int): (r: Option<Command>)
    ensures r.Some? ==> r.value in commands && r.value.id == id
  {
    if commands == [] then None
    else if commands[0].id == id then Some(commands[0])
    else FindCommand(commands[1..], id)
  }

  function FindInput(inputs: seq<CommandInput>, field: FieldId): (r: Option<CommandInput>)
    ensures r.Some? ==> r.value in inputs && r.value.field == field
  {
    if inputs == [] then None
    else if inputs[0].field == field then Some(inputs[0])
    else FindInput(inputs[1..], field)
  }

  // ------------------------------------------------------------ the checked definition

  function TableKey(t: Table): Key { Key(0, t.id) }
  function FieldKey(f: Field): Key { Key(0, f.id) }
  function CaptureKey(c: CaptureRule): Key { Key(c.lineTable, c.capturedPrice) }
  function PolicyKey(p: Policy): Key { Key(0, p.id) }
  function ConstraintKey(c: FieldConstraint): Key { Key(0, c.id) }
  function MachineKey(m: StateMachine): Key { Key(0, m.id) }
  function CommandKey(c: Command): Key { Key(0, c.id) }
  function InputKey(i: CommandInput): Key { Key(0, i.field) }
  function GuardKey(g: Guard): Key { Key(0, g.field) }
  function EventKey(e: EventIntent): Key { Key(0, e.id) }

  function FieldCount(tables: seq<Table>): nat {
    if tables == [] then 0 else |tables[0].fields| + FieldCount(tables[1..])
  }

  /** Distinct tables within the limits, identities of fields unique across all of them, references to known tables. */
  predicate TablesFit(tables: seq<Table>) {
    && |tables| <= MAX_TABLES
    && StrictlySorted(TableKey, tables)
    && FieldCount(tables) <= MAX_FIELDS
    && (forall t :: t in tables ==> |t.fields| <= MAX_FIELDS_PER_TABLE && StrictlySorted(FieldKey, t.fields))
    && (forall t, u, f, g :: t in tables && u in tables && t.id != u.id && f in t.fields && g in u.fields ==> f.id != g.id)
    && (forall t, f :: t in tables && f in t.fields && f.fieldType.RefType? ==> FindTable(tables, f.fieldType.target).Some?)
  }

  predicate TablesChecked(spec: Spec) {
    TablesFit(spec.tables)
  }

  predicate Destination(rules: seq<CaptureRule>, table: TableId, field: FieldId) {
    exists i :: 0 <= i < |rules| && rules[i].lineTable == table && rules[i].capturedPrice == field
  }

  predicate IsCaptured(spec: Spec, table: TableId, field: FieldId) {
    Destination(spec.captures, table, field)
  }

  /** Source and destination are money, the path is a reference, and no source is itself captured. */
  predicate CaptureChecked(spec: Spec, rule: CaptureRule) {
    match TypeOf(spec, rule.lineTable, rule.productRef)
    case Some(RefType(target)) =>
      && !IsCaptured(spec, target, rule.productPrice)
      && TypeOf(spec, target, rule.productPrice) == Some(MoneyType)
      && TypeOf(spec, rule.lineTable, rule.capturedPrice) == Some(MoneyType)
    case _ => false
  }

  predicate CapturesChecked(spec: Spec) {
    && |spec.captures| <= MAX_FIELDS
    && StrictlySorted(CaptureKey, spec.captures)
    && (forall c :: c in spec.captures ==> CaptureChecked(spec, c))
  }

  predicate ConstraintsChecked(spec: Spec) {
    && |spec.constraints| <= MAX_CONSTRAINTS
    && StrictlySorted(ConstraintKey, spec.constraints)
    && (forall c :: c in spec.constraints ==>
          var t := TypeOf(spec, c.table, c.field);
          t.Some? && SupportsType(c.constraint, t.value))
  }

  predicate PolicyChecked(spec: Spec, p: Policy) {
    && p.revision > 0
    && |p.readFields| <= 256 && |p.readRoles| <= 64 && |p.writeRoles| <= 64 && |p.submitRoles| <= 64
    && TypeOf(spec, p.table, p.ownerField) == Some(TextType)
    && (forall f :: f in p.readFields ==>
          var t := TypeOf(spec, p.table, f);
          t.Some? && !t.value.RefType?)
  }

  predicate PoliciesChecked(spec: Spec) {
    && |spec.policies| <= MAX_POLICIES
    && StrictlySorted(PolicyKey, spec.policies)
    && (forall p, q :: p in spec.policies && q in spec.policies && p.table == q.table ==> p == q)
    && (forall p :: p in spec.policies ==> PolicyChecked(spec, p))
  }

  predicate MachineChecked(spec: Spec, m: StateMachine) {
    && m.states != {} && |m.states| <= MAX_STATES && |m.terminal| <= MAX_STATES
    && m.terminal <= m.states
    && (forall s :: s in m.states ==> s != "" && TextBytes(s) <= 64 && forall i :: 0 <= i < |s| ==> !IsControl(s[i]))
    && (var f := FieldOf(spec, m.table, m.stateField);
        f.Some? && f.value.fieldType.TextType? && f.value.required)
    && (forall s, c :: s in m.states && c in spec.constraints && c.table == m.table && c.field == m.stateField
          ==> Accepts(c.constraint, Text(s)))
  }

  predicate MachinesChecked(spec: Spec) {
    && |spec.machines| <= MAX_STATE_MACHINES
    && StrictlySorted(MachineKey, spec.machines)
    && (forall m, n :: m in spec.machines && n in spec.machines && m.table == n.table ==> m == n)
    && (forall m :: m in spec.machines ==> MachineChecked(spec, m))
  }

  predicate ValueMatches(t: FieldType, v: Value) {
    match v
    case Blank => true
    case Null => true
    case Text(_) => t.TextType?
    case Integer(_) => t.IntegerType?
    case Money(_) => t.MoneyType?
    case Bool(_) => t.BoolType?
    case Ref(_) => false
  }

  /** A command writes declared inputs only: never state, owner, references, captures or capture paths. */
  predicate InputChecked(spec: Spec, m: StateMachine, p: Policy, input: CommandInput) {
    match TypeOf(spec, m.table, input.field)
    case None => false
    case Some(t) =>
      && input.field != m.stateField
      && input.field != p.ownerField
      && !t.RefType?
      && |input.constraints| <= MAX_INPUT_CONSTRAINTS
      && (forall i :: 0 <= i < |spec.captures| && spec.captures[i].lineTable == m.table
            ==> spec.captures[i].capturedPrice != input.field && spec.captures[i].productRef != input.field)
      && (forall i :: 0 <= i < |input.constraints| ==> SupportsType(input.constraints[i], t))
  }

  predicate GuardChecked(spec: Spec, m: StateMachine, guard: Guard) {
    match TypeOf(spec, m.table, guard.field)
    case None => false
    case Some(t) =>
      && !t.RefType?
      && ValueMatches(t, guard.equals)
      && (guard.equals.Text? ==> TextBytes(guard.equals.text) <= MAX_TEXT_BYTES)
  }

  predicate CommandChecked(spec: Spec, c: Command) {
    var machine := FindMachine(spec.machines, c.machine);
    var policy := FindPolicy(spec.policies, c.policy);
    && c.revision > 0
    && |c.inputs| <= MAX_COMMAND_INPUTS && |c.guards| <= MAX_GUARDS && |c.events| <= MAX_EVENTS
    && machine.Some? && policy.Some?
    && policy.value.table == machine.value.table
    && policy.value.ownerField != machine.value.stateField
    && c.fromState in machine.value.states
    && c.toState in machine.value.states
    && c.fromState !in machine.value.terminal
    && c.fromState != c.toState
    && StrictlySorted(InputKey, c.inputs)
    && (forall i :: i in c.inputs ==> InputChecked(spec, machine.value, policy.value, i))
    && StrictlySorted(GuardKey, c.guards)
    && (forall g :: g in c.guards ==> GuardChecked(spec, machine.value, g))
    && StrictlySorted(EventKey, c.events)
    && (forall e :: e in c.events ==> |e.fields| <= MAX_COMMAND_INPUTS && e.fields <= policy.value.readFields)
  }

  predicate CommandsChecked(spec: Spec) {
    && |spec.commands| <= MAX_COMMANDS
    && StrictlySorted(CommandKey, spec.commands)
    && (forall c :: c in spec.commands ==> CommandChecked(spec, c))
  }

  predicate VersionChecked(spec: Spec) {
    && (spec.version == 1 || spec.version == FORMAT_VERSION)
    && (spec.version == 1 ==> spec.constraints == [] && spec.machines == [] && spec.commands == [])
  }

  /** What `compile` guarantees of every definition it lets through. */
  predicate Checked(spec: Spec) {
    && VersionChecked(spec)
    && TablesChecked(spec)
    && ConstraintsChecked(spec)
    && CapturesChecked(spec)
    && PoliciesChecked(spec)
    && MachinesChecked(spec)
    && CommandsChecked(spec)
  }
}
