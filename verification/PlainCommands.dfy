/**
 Commands in plain terms: who may write a row, what a request must bring, and which facts one command
 leaves, said by membership and entry by entry. The transaction commits exactly these submissions,
 and every entry of every log is one of them.
 */
module PlainCommands {
  import opened Wrappers
  import opened Sorting
  import opened AppSpec
  import opened Records
  import opened Authority
  import opened Commands
  import opened CommandProofs
  import opened Availability
  import opened Database
  import opened Journal
  import opened Histories
  import opened JournalRuns
  import opened StoreRuns
  import opened PlainFacts

  /** The policy's owner field holds the actor, or some role of the actor is among those it lets write. */
  predicate Writes(p: Policy, actor: string, roles: set<int>, row: RawRecord) {
    && row.table == p.table
    && (|| (p.ownerField in row.values && row.values[p.ownerField] == Text(actor))
        || exists role :: role in p.writeRoles && role in roles)
  }

  /** The same for reading. */
  predicate Reads(p: Policy, actor: string, roles: set<int>, row: RawRecord) {
    && row.table == p.table
    && (|| (p.ownerField in row.values && row.values[p.ownerField] == Text(actor))
        || exists role :: role in p.readRoles && role in roles)
  }

  /** The request names command `c`, which is bound to machine `m` and policy `p`. */
  predicate Names(spec: Spec, command: int, c: Command, m: StateMachine, p: Policy) {
    && c in spec.commands && c.id == command
    && m in spec.machines && m.id == c.machine
    && p in spec.policies && p.id == c.policy
  }

  predicate Suits(t: FieldType, v: Value) {
    match t
    case TextType => v.Text? && TextBytes(v.text) <= 16_384
    case IntegerType => v.Integer?
    case BoolType => v.Bool?
    case MoneyType => v.Money?
    case RefType(_) => false
  }

  /** An input is declared by the command and by its table, is given if required, and if given suits its type and obeys its rules. */
  ghost predicate InputReads(spec: Spec, table: TableId, c: Command, f: FieldId, v: Value) {
    exists input, field ::
      && input in c.inputs && input.field == f && Declares(spec, table, field) && field.id == f
      && (v == Blank || v == Null ==> !input.required)
      && (v != Blank && v != Null ==> Suits(field.fieldType, v) && forall k :: k in input.constraints ==> Obeys(k, v))
  }

  ghost predicate InputsRead(spec: Spec, table: TableId, c: Command, inputs: Values) {
    && (forall f :: f in inputs ==> InputReads(spec, table, c, f, inputs[f]))
    && (forall input :: input in c.inputs && input.required ==> input.field in inputs)
  }

  predicate KeyReads(key: string) {
    && 1 <= |key| && |key| <= 96
    && forall ch :: ch in key ==>
         var n := ch as int;
         (97 <= n && n <= 122) || (65 <= n && n <= 90) || (48 <= n && n <= 57) || n == 95 || n == 45
  }

  /** The request is well keyed, bounded by itself and with the definition, and brings what the command declares. */
  ghost predicate RequestReads(spec: Spec, c: Command, m: StateMachine, q: Request) {
    && KeyReads(q.key) && |q.inputs| <= 64
    && RequestBytes(q) <= 1_048_576 && RequestNodes(q) <= 20_000
    && SpecBytes(spec) + RequestBytes(q) <= 1_048_576 && SpecNodes(spec) + RequestNodes(q) <= 20_000
    && InputsRead(spec, m.table, c, q.inputs)
  }

  /** The row is in the state the command starts from, that state is not terminal, and every guard holds. */
  predicate Ready(c: Command, m: StateMachine, row: RawRecord) {
    && m.stateField in row.values && row.values[m.stateField] == Text(c.fromState) && c.fromState !in m.terminal
    && forall g :: g in c.guards ==> g.field in row.values && row.values[g.field] == g.equals
  }

  /** What a command makes of its row: the state it ends in, the inputs, and everything else as it was. */
  ghost predicate Steps(c: Command, m: StateMachine, inputs: Values, was: RawRecord, now: RawRecord) {
    && now.scope == was.scope && now.table == was.table && now.id == was.id
    && m.stateField in now.values && now.values[m.stateField] == Text(c.toState)
    && (forall f :: f in inputs && f != m.stateField ==> f in now.values && now.values[f] == inputs[f])
    && (forall f :: f !in inputs && f != m.stateField ==> SameEntry(was.values, now.values, f))
  }

  /** The facts after: one row steps, every other one stays in place. */
  ghost predicate OneSteps(c: Command, m: StateMachine, inputs: Values, row: RawRecord, facts: seq<RawRecord>, next: seq<RawRecord>) {
    && |next| == |facts|
    && forall i :: 0 <= i < |facts| ==> if facts[i] == row then Steps(c, m, inputs, row, next[i]) else next[i] == facts[i]
  }

  predicate Target(m: StateMachine, q: Request, facts: seq<RawRecord>, row: RawRecord) {
    row in facts && row.table == m.table && row.id == q.record
  }

  /** An actor may submit the request, and it takes `facts` to `next`. */
  ghost predicate Submission(spec: Spec, scope: Scope, facts: seq<RawRecord>, actor: string, roles: set<int>, q: Request, next: seq<RawRecord>) {
    exists c, m, p, row ::
      && Names(spec, q.command, c, m, p) && Target(m, q, facts, row)
      && Writes(p, actor, roles, row)
      && RequestReads(spec, c, m, q)
      && Ready(c, m, row)
      && OneSteps(c, m, q.inputs, row, facts, next)
      && Publishable(spec, scope, next)
  }

  // ------------------------------------------------------------ the engine's helpers mean the same

  lemma {:induction false} MachineFound(machines: seq<StateMachine>, m: StateMachine)
    requires StrictlySorted(MachineKey, machines) && m in machines
    ensures FindMachine(machines, m.id) == Some(m)
  {
    if machines[0] != m {
      var i :| 0 < i < |machines| && machines[i] == m;
      assert KeyLess(MachineKey(machines[0]), MachineKey(machines[i]));
      assert machines[1..][i - 1] == m;
      MachineFound(machines[1..], m);
    }
  }

  lemma {:induction false} PolicyFound(policies: seq<Policy>, p: Policy)
    requires StrictlySorted(PolicyKey, policies) && p in policies
    ensures FindPolicy(policies, p.id) == Some(p)
  {
    if policies[0] != p {
      var i :| 0 < i < |policies| && policies[i] == p;
      assert KeyLess(PolicyKey(policies[0]), PolicyKey(policies[i]));
      assert policies[1..][i - 1] == p;
      PolicyFound(policies[1..], p);
    }
  }

  lemma {:induction false} InputFound(inputs: seq<CommandInput>, input: CommandInput)
    requires StrictlySorted(InputKey, inputs) && input in inputs
    ensures FindInput(inputs, input.field) == Some(input)
  {
    if inputs[0] != input {
      var i :| 0 < i < |inputs| && inputs[i] == input;
      assert KeyLess(InputKey(inputs[0]), InputKey(inputs[i]));
      assert inputs[1..][i - 1] == input;
      InputFound(inputs[1..], input);
    }
  }

  lemma NamesFound(spec: Spec, command: int, c: Command, m: StateMachine, p: Policy)
    requires Checked(spec)
    ensures Names(spec, command, c, m, p) <==>
              && FindCommand(spec.commands, command) == Some(c)
              && FindMachine(spec.machines, c.machine) == Some(m) && FindPolicy(spec.policies, c.policy) == Some(p)
    ensures Names(spec, command, c, m, p) ==> CommandChecked(spec, c) && m.table == p.table
  {
    hide TablesChecked, ConstraintsChecked, CapturesChecked, VersionChecked, MachineChecked, PolicyChecked, FindCommand, FindMachine, FindPolicy, InputChecked, GuardChecked;
    if Names(spec, command, c, m, p) {
      CommandFound(spec.commands, c);
      MachineFound(spec.machines, m);
      PolicyFound(spec.policies, p);
      assert CommandChecked(spec, c);
    }
  }

  lemma WritesMeans(p: Policy, context: Context, row: RawRecord)
    ensures Allows(p, context, row) <==> row.scope == context.scope && Writes(p, context.actor, context.roles, row)
  {
    var both := p.writeRoles * context.roles;
    if both != {} {
      var role := SomeElement(both);
      assert role in p.writeRoles && role in context.roles;
    }
    if exists role :: role in p.writeRoles && role in context.roles {
      var role :| role in p.writeRoles && role in context.roles;
      assert role in both;
    }
  }

  lemma ReadsMeans(p: Policy, context: Context, row: RawRecord)
    ensures Readable(p, context, row) <==> row.scope == context.scope && Reads(p, context.actor, context.roles, row)
  {
    var both := p.readRoles * context.roles;
    if both != {} {
      var role := SomeElement(both);
      assert role in p.readRoles && role in context.roles;
    }
    if exists role :: role in p.readRoles && role in context.roles {
      var role :| role in p.readRoles && role in context.roles;
      assert role in both;
    }
  }

  lemma KeyMeans(key: string)
    ensures ValidKey(key) <==> KeyReads(key)
  {
    if ValidKey(key) {
      forall ch | ch in key
        ensures KeyChar(ch)
      {
        var i :| 0 <= i < |key| && key[i] == ch;
      }
    }
    if KeyReads(key) {
      forall i | 0 <= i < |key|
        ensures KeyChar(key[i])
      {
        assert key[i] in key;
      }
    }
  }

  lemma ReadyMeans(c: Command, m: StateMachine, row: RawRecord)
    ensures TransitionOpen(c, m, row) && GuardsHold(c, row) <==> Ready(c, m, row)
  {
    if GuardsHold(c, row) {
      forall g | g in c.guards
        ensures g.field in row.values && row.values[g.field] == g.equals
      {
        var i :| 0 <= i < |c.guards| && c.guards[i] == g;
      }
    }
    if Ready(c, m, row) {
      forall i | 0 <= i < |c.guards|
        ensures c.guards[i].field in row.values && row.values[c.guards[i].field] == c.guards[i].equals
      {
        assert c.guards[i] in c.guards;
      }
    }
  }

  lemma SuitsMeans(t: FieldType, v: Value)
    requires v != Blank && v != Null
    ensures ValueMatches(t, v) && (v.Text? ==> TextBytes(v.text) <= MAX_TEXT_BYTES) <==> Suits(t, v)
  {
  }

  lemma RulesMean(rules: seq<Constraint>, v: Value)
    ensures (forall i :: 0 <= i < |rules| ==> Accepts(rules[i], v)) <==> v == Blank || v == Null || forall k :: k in rules ==> Obeys(k, v)
  {
    hide Accepts, Obeys;
    forall i | 0 <= i < |rules|
      ensures Accepts(rules[i], v) <==> v == Blank || v == Null || Obeys(rules[i], v)
    {
      RuleMeans(rules[i], v);
    }
    if forall i :: 0 <= i < |rules| ==> Accepts(rules[i], v) {
      forall k | k in rules
        ensures v == Blank || v == Null || Obeys(k, v)
      {
        var i :| 0 <= i < |rules| && rules[i] == k;
      }
    }
    if v == Blank || v == Null || forall k :: k in rules ==> Obeys(k, v) {
      forall i | 0 <= i < |rules|
        ensures Accepts(rules[i], v)
      {
        assert rules[i] in rules;
      }
    }
  }

  lemma InputMeans(spec: Spec, m: StateMachine, c: Command, f: FieldId, v: Value)
    requires Checked(spec) && StrictlySorted(InputKey, c.inputs)
    ensures InputAccepted(spec, m, c, f, v) <==> InputReads(spec, m.table, c, f, v)
  {
    hide Checked, Declares, FindInput, FieldOf, ValueMatches, Suits, Accepts, Obeys;
    if InputAccepted(spec, m, c, f, v) {
      var input := FindInput(c.inputs, f).value;
      var field := FieldOf(spec, m.table, f).value;
      FieldOfId(spec, m.table, f);
      FieldFound(spec, m.table, field);
      RulesMean(input.constraints, v);
      if v != Blank && v != Null {
        SuitsMeans(field.fieldType, v);
      }
    }
    if InputReads(spec, m.table, c, f, v) {
      var input, field :|
        && input in c.inputs && input.field == f && Declares(spec, m.table, field) && field.id == f
        && (v == Blank || v == Null ==> !input.required)
        && (v != Blank && v != Null ==> Suits(field.fieldType, v) && forall k :: k in input.constraints ==> Obeys(k, v));
      InputFound(c.inputs, input);
      FieldFound(spec, m.table, field);
      RulesMean(input.constraints, v);
      if v != Blank && v != Null {
        SuitsMeans(field.fieldType, v);
      } else {
        MissingMatches(field.fieldType, v);
      }
    }
  }

  lemma MissingMatches(t: FieldType, v: Value)
    requires v == Blank || v == Null
    ensures ValueMatches(t, v)
  {
  }

  lemma FieldOfId(spec: Spec, table: TableId, field: FieldId)
    ensures FieldOf(spec, table, field).Some? ==> FieldOf(spec, table, field).value.id == field
  {
  }

  lemma RequestMeans(spec: Spec, m: StateMachine, c: Command, q: Request)
    requires Checked(spec) && StrictlySorted(InputKey, c.inputs)
    ensures (&& ValidKey(q.key) && |q.inputs| <= MAX_COMMAND_INPUTS && RequestFits(q) && IntentFits(spec, q)
             && InputsAccepted(spec, m, c, q.inputs))
            <==> RequestReads(spec, c, m, q)
  {
    hide Checked, InputAccepted, InputReads, ValidKey, KeyReads, RequestBytes, RequestNodes, SpecBytes, SpecNodes;
    KeyMeans(q.key);
    forall f | f in q.inputs
      ensures InputAccepted(spec, m, c, f, q.inputs[f]) <==> InputReads(spec, m.table, c, f, q.inputs[f])
    {
      InputMeans(spec, m, c, f, q.inputs[f]);
    }
    if InputsAccepted(spec, m, c, q.inputs) {
      forall input | input in c.inputs && input.required
        ensures input.field in q.inputs
      {
        var i :| 0 <= i < |c.inputs| && c.inputs[i] == input;
      }
    }
    if InputsRead(spec, m.table, c, q.inputs) {
      forall i | 0 <= i < |c.inputs| && c.inputs[i].required
        ensures c.inputs[i].field in q.inputs
      {
        assert c.inputs[i] in c.inputs;
      }
    }
  }

  lemma TargetFound(m: StateMachine, q: Request, facts: seq<RawRecord>, row: RawRecord)
    requires DistinctKeys(RecordKey, facts)
    ensures Target(m, q, facts, row) <==> FindRow(facts, Key(m.table, q.record)) == Some(row)
  {
    if Target(m, q, facts, row) {
      FindRowUnique(facts, row);
    }
  }

  /** Stepping determines the row. */
  lemma StepsMeans(p: Prepared, was: RawRecord, now: RawRecord)
    ensures Steps(p.command, p.machine, p.request.inputs, was, now) <==> now == Proposed(p, was)
  {
    var next := Proposed(p, was);
    if Steps(p.command, p.machine, p.request.inputs, was, now) {
      forall f
        ensures f in now.values <==> f in next.values
        ensures f in now.values ==> now.values[f] == next.values[f]
      {
        assert f !in p.request.inputs && f != p.machine.stateField ==> SameEntry(was.values, now.values, f);
      }
      assert now.values.Keys == next.values.Keys;
      assert now.values == next.values;
    }
  }

  lemma OneStepsMeans(p: Prepared, facts: seq<RawRecord>, row: RawRecord, next: seq<RawRecord>)
    requires DistinctKeys(RecordKey, facts) && row in facts
    ensures OneSteps(p.command, p.machine, p.request.inputs, row, facts, next) <==> next == ReplaceRow(facts, Proposed(p, row))
  {
    hide Steps, Proposed, ReplaceRow;
    var now := Proposed(p, row);
    ProposedIdentity(p, row);
    ReplaceRowAt(facts, now);
    var k :| 0 <= k < |facts| && facts[k] == row;
    forall i | 0 <= i < |facts|
      ensures RecordKey(facts[i]) == RecordKey(row) <==> facts[i] == row
    {
      assert i != k ==> RecordKey(facts[i]) != RecordKey(facts[k]);
    }
    forall r
      ensures Steps(p.command, p.machine, p.request.inputs, row, r) <==> r == now
    {
      StepsMeans(p, row, r);
    }
  }

  // ------------------------------------------------------------ preparing and deciding

  /** Of a live caller and a named command, preparation refuses exactly those who may not write the row. */
  lemma PrepareDenies(spec: Spec, facts: seq<RawRecord>, call: Call, reading: Reading, q: Request, c: Command, m: StateMachine, p: Policy)
    requires Checked(spec) && CheckedRecords(spec, call.scope, facts) && Live(call, Write, reading) && Names(spec, q.command, c, m, p)
    ensures var r := Prepare(spec, facts, call, reading, q);
            var a := reading.value;
            && (r == Err(Denied) <==> !exists row :: Target(m, q, facts, row) && Writes(p, a.session.actor, a.membership.roles, row))
            && (r.Ok? <==> (exists row :: Target(m, q, facts, row) && Writes(p, a.session.actor, a.membership.roles, row)) && RequestReads(spec, c, m, q))
            && (r.Ok? ==> r.value == Prepared(Resolve(call, Write, reading).value, p, c, m, q))
  {
    hide Checked, CheckedRecords, Resolve, Live, Names, Allows, ValidKey, RequestFits, IntentFits, InputsAccepted, RequestReads, Writes, Target,
      FindCommand, FindMachine, FindPolicy, FindRow, CommandChecked;
    ResolvedMeans(call, Write, reading);
    NamesFound(spec, q.command, c, m, p);
    InputsSorted(spec, c);
    RequestMeans(spec, m, c, q);
    ScopeOfFacts(spec, call.scope, facts);
    CheckedDistinct(spec, call.scope, facts);
    var context := Resolve(call, Write, reading).value;
    forall row
      ensures Target(m, q, facts, row) <==> FindRow(facts, Key(m.table, q.record)) == Some(row)
      ensures Target(m, q, facts, row) ==> (Allows(p, context, row) <==> Writes(p, context.actor, context.roles, row))
    {
      TargetFound(m, q, facts, row);
      WritesMeans(p, context, row);
      if Target(m, q, facts, row) {
        TargetScoped(spec, call.scope, m, q, facts, row);
      }
    }
  }

  lemma TargetScoped(spec: Spec, scope: Scope, m: StateMachine, q: Request, facts: seq<RawRecord>, row: RawRecord)
    requires CheckedRecords(spec, scope, facts) && Target(m, q, facts, row)
    ensures row.scope == scope
  {
    hide CheckedRecords;
    RowNormal(spec, scope, facts, row);
  }

  lemma InputsSorted(spec: Spec, c: Command)
    requires CommandChecked(spec, c)
    ensures StrictlySorted(InputKey, c.inputs)
  {
  }

  /** A prepared command is decided exactly when its row is ready and what it leaves can be published; it is never denied then. */
  lemma DecideExactly(spec: Spec, scope: Scope, facts: seq<RawRecord>, p: Prepared, row: RawRecord)
    requires Checked(spec) && Bound(spec, p) && CheckedRecords(spec, scope, facts)
    requires FindRow(facts, Key(p.machine.table, p.request.record)) == Some(row) && Allows(p.policy, p.context, row)
    ensures var d := Decide(spec, scope, facts, p);
            var next := ReplaceRow(facts, Proposed(p, row));
            && d != Err(Denied)
            && (d.Ok? <==> Ready(p.command, p.machine, row) && Publishable(spec, scope, next))
            && (d.Ok? ==> d.value.facts == next)
  {
    hide Checked, CheckedRecords, Bound, ValidRows, Canonical, GuardsHold, TransitionOpen, Allows, ReplaceRow, Advances, Proposed, FindRow, Publishable, Ready;
    var key := Key(p.machine.table, p.request.record);
    ReadyMeans(p.command, p.machine, row);
    var next := Proposed(p, row);
    ValidateExactly(spec, scope, ReplaceRow(facts, next));
    if TransitionOpen(p.command, p.machine, row) {
      ProposedNormal(spec, scope, facts, p, row);
      ProposedAdvances(spec, scope, facts, p, row);
      ProposedIdentity(p, row);
      ReplaceRowCanonical(spec, scope, facts, next);
      CheckedDistinct(spec, scope, facts);
      ReplaceRowFind(facts, next);
      AllowsKept(spec, p, row, next, p.context);
    }
  }

  lemma BoundNames(spec: Spec, p: Prepared)
    requires Checked(spec) && Bound(spec, p)
    ensures Names(spec, p.request.command, p.command, p.machine, p.policy) && RequestReads(spec, p.command, p.machine, p.request)
  {
    hide Checked, ValidKey, RequestFits, IntentFits, InputsAccepted, CommandChecked, FindCommand, FindMachine, FindPolicy, RequestReads;
    NamesFound(spec, p.request.command, p.command, p.machine, p.policy);
    InputsSorted(spec, p.command);
    RequestMeans(spec, p.machine, p.command, p.request);
  }

  /** What was prepared and decided is a submission, and the submissions of a prepared command are what it decides. */
  lemma DecidedSubmits(spec: Spec, scope: Scope, facts: seq<RawRecord>, p: Prepared, next: seq<RawRecord>)
    requires Checked(spec) && Bound(spec, p) && CheckedRecords(spec, scope, facts) && p.context.scope == scope
    requires FindRow(facts, Key(p.machine.table, p.request.record)).Some?
    requires Allows(p.policy, p.context, FindRow(facts, Key(p.machine.table, p.request.record)).value)
    ensures var d := Decide(spec, scope, facts, p);
            Submission(spec, scope, facts, p.context.actor, p.context.roles, p.request, next) <==> d.Ok? && d.value.facts == next
  {
    hide Checked, CheckedRecords, Bound, Allows, Decide, FindRow, Writes, RequestReads, Ready, OneSteps, Publishable, Names, Target, ReplaceRow, Proposed;
    var row := FindRow(facts, Key(p.machine.table, p.request.record)).value;
    BoundNames(spec, p);
    CheckedDistinct(spec, scope, facts);
    TargetFound(p.machine, p.request, facts, row);
    WritesMeans(p.policy, p.context, row);
    DecideExactly(spec, scope, facts, p, row);
    OneStepsMeans(p, facts, row, next);
    if Submission(spec, scope, facts, p.context.actor, p.context.roles, p.request, next) {
      var c, m, pol, r :|
        && Names(spec, p.request.command, c, m, pol) && Target(m, p.request, facts, r)
        && Writes(pol, p.context.actor, p.context.roles, r) && RequestReads(spec, c, m, p.request) && Ready(c, m, r)
        && OneSteps(c, m, p.request.inputs, r, facts, next) && Publishable(spec, scope, next);
      NamedOnce(spec, p.request.command, c, m, pol, p.command, p.machine, p.policy);
      TargetFound(p.machine, p.request, facts, r);
    }
  }

  lemma NamedOnce(spec: Spec, command: int, c: Command, m: StateMachine, p: Policy, d: Command, n: StateMachine, r: Policy)
    requires Checked(spec) && Names(spec, command, c, m, p) && Names(spec, command, d, n, r)
    ensures c == d && m == n && p == r
  {
    hide Checked, FindCommand, FindMachine, FindPolicy;
    NamesFound(spec, command, c, m, p);
    NamesFound(spec, command, d, n, r);
  }

  // ------------------------------------------------------------ the log

  /** Every entry of every log was submitted by the owner of its row or by a role its policy lets write, and took the facts one step. */
  lemma LoggedSubmits(cfg: Config, db: Db, books: Books, app: int, i: nat)
    requires Journalled(cfg, db, books) && app in books && i < |books[app].log|
    ensures var book, e := books[app], books[app].log[i];
            Submission(book.spec, Scope(cfg.tenant, app), FactsAfter(book, i), e.context.actor, e.context.roles, e.request, FactsAfter(book, i + 1))
  {
    hide Checked, CheckedRecords, Bound, Allows, Decide, FactsAfter, Submission, Posted, NothingElse;
    var book := books[app];
    BookHead(cfg, db, books, app);
    assert Committed(cfg, app, book, i);
    HistoryChecked(cfg, app, book, i);
    PreparedRequest(book.spec, book.log[i]);
    DecidedSubmits(book.spec, Scope(cfg.tenant, app), FactsAfter(book, i), PreparedOf(book.spec, book.log[i]).value, FactsAfter(book, i + 1));
  }

  /** At no revision does a record of any application leave a required field blank, null or out. */
  lemma RequiredAlways(cfg: Config, db: Db, books: Books, app: int, n: nat, r: RawRecord, f: Field)
    requires Journalled(cfg, db, books) && app in books && n <= |books[app].log|
    requires r in FactsAfter(books[app], n) && Declares(books[app].spec, r.table, f) && f.required
    ensures f.id in r.values && r.values[f.id] != Blank && r.values[f.id] != Null
  {
    hide Checked, CheckedRecords, FactsAfter, Declares, NothingElse;
    BookHead(cfg, db, books, app);
    HistoryChecked(cfg, app, books[app], n);
    RequiredHeld(books[app].spec, Scope(cfg.tenant, app), FactsAfter(books[app], n), r, f);
  }

  /** What the tables hold of commit `i`: its receipt, its audit row, and one event for each declared intent with the values of the changed row. */
  ghost predicate Rows(cfg: Config, db: Db, app: int, spec: Spec, i: nat, e: Entry, c: Command, p: Policy, row: RawRecord) {
    && ReceiptKey(app, e.context.actor, e.request.key) in db.receipts
    && (var r := db.receipts[ReceiptKey(app, e.context.actor, e.request.key)];
        && r.intent == Intent(Digest(spec), i + 1, spec, e.request.command, e.request.record, e.request.inputs)
        && r.envelope == Envelope(i + 1, e.request)
        && r.receipt == Receipt(c.id, e.request.record, c.toState, e.request.key, false, i + 2, i + 1, Digest(spec)))
    && AuditKey(app, i + 2) in db.audit
    && db.audit[AuditKey(app, i + 2)]
       == Audit(e.context.actor, Scope(cfg.tenant, app), cfg.binding, e.context.membershipRevision, p.revision, c.id,
                e.request.record, i + 1, i + 2, Digest(spec), e.now)
    && (forall k :: k in db.events && k.app == app && k.revision == i + 2 ==> k.index < |c.events|)
    && (forall j: nat :: j < |c.events| ==> Projects(db, EventKey(app, i + 2, j), c.events[j], p, row, Digest(spec)))
  }

  /** The event tells what the row holds in the declared fields, each of them readable, and nothing else. */
  ghost predicate Projects(db: Db, k: EventKey, intent: EventIntent, p: Policy, row: RawRecord, identity: Identity) {
    && k in db.events
    && db.events[k].revision == k.revision && db.events[k].identity == identity && db.events[k].event.id == intent.id
    && (forall f :: f in db.events[k].event.payload <==> f in intent.fields)
    && (forall f :: f in intent.fields ==> f in p.readFields && f in row.values && db.events[k].event.payload[f] == row.values[f])
  }

  lemma EventRowOf(db: Db, app: int, revision: nat, identity: Identity, intents: seq<EventIntent>, row: RawRecord)
    requires EventsAt(db, app, revision) == EventRows(app, revision, identity, EventsOf(intents, row))
    ensures forall k :: k in db.events && k.app == app && k.revision == revision ==> k.index < |intents|
    ensures forall j: nat :: j < |intents| ==>
              && EventKey(app, revision, j) in db.events
              && db.events[EventKey(app, revision, j)] == EventRow(EventOf(intents[j], row), revision, identity)
  {
    hide EventsOf, EventRows;
    EventRowsAt(app, revision, identity, EventsOf(intents, row));
    forall k | k in db.events && k.app == app && k.revision == revision
      ensures k.index < |intents|
    {
      assert k in EventsAt(db, app, revision);
    }
    forall j: nat | j < |intents|
      ensures EventKey(app, revision, j) in db.events
      ensures db.events[EventKey(app, revision, j)] == EventRow(EventOf(intents[j], row), revision, identity)
    {
      assert EventKey(app, revision, j) in EventsAt(db, app, revision);
    }
  }

  lemma PreparedNames(cfg: Config, db: Db, books: Books, app: int, i: nat)
    requires Journalled(cfg, db, books) && app in books && i < |books[app].log|
    ensures var book, e := books[app], books[app].log[i];
            && PreparedOf(book.spec, e).Some? && e.context.binding == cfg.binding && e.expected == i + 1
            && var p := PreparedOf(book.spec, e).value;
               && p.request == e.request && p.context == e.context
               && Names(book.spec, e.request.command, p.command, p.machine, p.policy)
  {
    hide Checked, CheckedRecords, FactsAfter, Committed, NothingElse, Names, Bound;
    var book := books[app];
    BookHead(cfg, db, books, app);
    assert Committed(cfg, app, book, i);
    CommittedPrepared(cfg, app, book, i);
    BoundNames(book.spec, PreparedOf(book.spec, book.log[i]).value);
  }

  /** Every entry of every log has exactly these rows. */
  lemma RowsExactly(cfg: Config, db: Db, books: Books, app: int, i: nat)
    requires Journalled(cfg, db, books) && app in books && i < |books[app].log|
    ensures var book, e := books[app], books[app].log[i];
            exists c, m, p, row ::
              && Names(book.spec, e.request.command, c, m, p) && Target(m, e.request, FactsAfter(book, i + 1), row)
              && Rows(cfg, db, app, book.spec, i, e, c, p, row)
  {
    hide Checked, CheckedRecords, FactsAfter, Committed, NothingElse, HeadOk, Names, EventsAt, EventRows, EventsOf, FindRow;
    var book, e := books[app], books[app].log[i];
    PreparedNames(cfg, db, books, app, i);
    EventsProjectFacts(cfg, db, books, app, i);
    assert BookOk(cfg, db, app, book);
    assert Posted(cfg, db, app, book, i);
    var p := PreparedOf(book.spec, e).value;
    var row := RowAt(book, i + 1, TargetOf(book, i)).value;
    EventRowOf(db, app, i + 2, Digest(book.spec), p.command.events, row);
    assert Target(p.machine, e.request, FactsAfter(book, i + 1), row);
    RowsFrom(cfg, db, app, book, i, p, row);
  }

  lemma RowsFrom(cfg: Config, db: Db, app: int, book: Book, i: nat, p: Prepared, row: RawRecord)
    requires i < |book.log| && PreparedOf(book.spec, book.log[i]) == Some(p) && p.request == book.log[i].request && p.context == book.log[i].context
    requires p.command.id == p.request.command && p.context.binding == cfg.binding && book.log[i].expected == i + 1
    requires EntryKey(app, book.log[i]) in db.receipts && db.receipts[EntryKey(app, book.log[i])] == ReceiptOf(book, i, p)
    requires AuditKey(app, i + 2) in db.audit && db.audit[AuditKey(app, i + 2)] == AuditOf(app, cfg.tenant, book, i, p)
    requires forall k :: k in db.events && k.app == app && k.revision == i + 2 ==> k.index < |p.command.events|
    requires forall j: nat :: j < |p.command.events| ==>
               EventKey(app, i + 2, j) in db.events
               && db.events[EventKey(app, i + 2, j)] == EventRow(EventOf(p.command.events[j], row), i + 2, Digest(book.spec))
    requires forall e, f :: e in p.command.events && f in e.fields ==> f in p.policy.readFields && f in row.values
    ensures Rows(cfg, db, app, book.spec, i, book.log[i], p.command, p.policy, row)
  {
    hide FactsAfter, PreparedOf;
    forall j: nat | j < |p.command.events|
      ensures Projects(db, EventKey(app, i + 2, j), p.command.events[j], p.policy, row, Digest(book.spec))
    {
      assert p.command.events[j] in p.command.events;
      assert db.events[EventKey(app, i + 2, j)].event == EventOf(p.command.events[j], row);
    }
    var e := book.log[i];
    assert db.receipts[ReceiptKey(app, e.context.actor, e.request.key)].receipt
           == Receipt(p.command.id, e.request.record, p.command.toState, e.request.key, false, i + 2, i + 1, Digest(book.spec));
    assert db.receipts[ReceiptKey(app, e.context.actor, e.request.key)].intent
           == Intent(Digest(book.spec), i + 1, book.spec, e.request.command, e.request.record, e.request.inputs);
    assert db.audit[AuditKey(app, i + 2)]
           == Audit(e.context.actor, Scope(cfg.tenant, app), cfg.binding, e.context.membershipRevision, p.policy.revision, p.command.id,
                    e.request.record, i + 1, i + 2, Digest(book.spec), e.now);
  }

  // ------------------------------------------------------------ the transaction

  /** Past its preparation, an execution is never denied. */
  lemma NotDeniedLater(cfg: Config, db: Db, books: Books, call: Call, readings: Readings, expected: nat, q: Request, fault: Option<Stage>, context: Context)
    requires Journalled(cfg, db, books) && call.scope.tenant == cfg.tenant && call.scope.app in books
    ensures var book := books[call.scope.app];
            var snapshot := SnapshotAt(book, |book.log|);
            var r := ExecuteOn(cfg, db, call, readings, expected, q, fault, context, snapshot).1;
            r == Err(Rejected(Denied)) <==> Prepare(book.spec, snapshot.facts, call, readings.prepare, q) == Err(Denied)
  {
    hide Journalled, Checked, CheckedRecords, Prepare, Decide, Validate, Revalidated, Written, Collides, Replay, FactsAfter, Bound, Allows, FindRow, ReplaceRow, Proposed, Ready, Publishable;
    var book := books[call.scope.app];
    var snapshot := SnapshotAt(book, |book.log|);
    BookHead(cfg, db, books, call.scope.app);
    assert call.scope == Scope(cfg.tenant, call.scope.app);
    PreparedMeans(book.spec, snapshot.facts, call, readings.prepare, q);
    RevalidatedMeans(cfg, call, readings.commit, context);
    if Prepare(book.spec, snapshot.facts, call, readings.prepare, q).Ok? {
      var x := Prepare(book.spec, snapshot.facts, call, readings.prepare, q).value;
      DecideExactly(book.spec, call.scope, snapshot.facts, x, FindRow(snapshot.facts, Key(x.machine.table, x.request.record)).value);
      var key := ReceiptKey(call.scope.app, context.actor, q.key);
      if key in db.receipts {
        ReplayNotDenied(cfg, db.receipts[key], call, readings, expected, q, context, snapshot);
      }
    }
  }

  /** With live authority and a known command, an execution is denied exactly when the caller neither owns the row nor holds a role that may write it. */
  lemma DeniedExactly(cfg: Config, db: Db, books: Books, call: Call, readings: Readings, expected: nat, q: Request, fault: Option<Stage>, ack: Ack,
                      c: Command, m: StateMachine, p: Policy)
    requires Journalled(cfg, db, books) && call.scope.tenant == cfg.tenant && call.scope.app in books
    requires Live(call, Write, readings.entry) && readings.entry.value.binding.id == cfg.binding && Live(call, Write, readings.prepare)
    requires Names(books[call.scope.app].spec, q.command, c, m, p) && fault != Some(AtStart)
    ensures var book := books[call.scope.app];
            var a := readings.prepare.value;
            var (next, r) := Execute(cfg, db, call, readings, expected, q, fault, ack);
            && (r == Err(Rejected(Denied)) <==>
                  !exists row :: Target(m, q, FactsAfter(book, |book.log|), row) && Writes(p, a.session.actor, a.membership.roles, row))
            && (r == Err(Rejected(Denied)) ==> next == db)
  {
    hide Journalled, Checked, CheckedRecords, Live, Resolve, Prepare, ExecuteOn, Load, FactsAfter, Names, Target, Writes, RequestReads;
    var book := books[call.scope.app];
    var facts := FactsAfter(book, |book.log|);
    BookHead(cfg, db, books, call.scope.app);
    assert call.scope == Scope(cfg.tenant, call.scope.app);
    LoadJournalled(cfg, db, books, call.scope);
    ResolvedMeans(call, Write, readings.entry);
    PrepareDenies(book.spec, facts, call, readings.prepare, q, c, m, p);
    NotDeniedLater(cfg, db, books, call, readings, expected, q, fault, Authorised(cfg, call, readings.entry).value);
  }

  lemma ReplayNotDenied(cfg: Config, row: ReceiptRow, call: Call, readings: Readings, expected: nat, q: Request, context: Context, snapshot: Snapshot)
    ensures Replay(cfg, row, call, readings, expected, q, context, snapshot) != Err(Rejected(Denied))
  {
    RevalidatedMeans(cfg, call, readings.commit, context);
  }

  /** Under one live authority and a fresh key, a request commits exactly when it expects the current revision and is a submission, and leaves what it submits. */
  lemma CommitsExactly(cfg: Config, db: Db, books: Books, call: Call, readings: Readings, expected: nat, q: Request, context: Context)
    requires Journalled(cfg, db, books) && call.scope.app in books
    requires SameAuthority(cfg, call.scope.app, call, readings, context) && context.binding == cfg.binding
    requires ReceiptKey(call.scope.app, context.actor, q.key) !in db.receipts
    ensures var book := books[call.scope.app];
            var facts := FactsAfter(book, |book.log|);
            var (next, r) := Execute(cfg, db, call, readings, expected, q, None, Acked);
            && (r.Ok? <==> expected == |book.log| + 1 && |book.log| + 2 <= I64_MAX
                           && exists after :: Submission(book.spec, call.scope, facts, context.actor, context.roles, q, after))
            && (r.Err? ==> next == db)
            && (forall after :: r.Ok? && Submission(book.spec, call.scope, facts, context.actor, context.roles, q, after) ==>
                  next.applications == db.applications[call.scope.app := Application(Digest(book.spec), expected + 1, after)])
  {
    hide Journalled, Checked, CheckedRecords, Resolve, Prepare, Decide, Validate, Collides, Load, FactsAfter, Submission, Bound, Allows;
    var app := call.scope.app;
    var book := books[app];
    var facts := FactsAfter(book, |book.log|);
    BookHead(cfg, db, books, app);
    LoadJournalled(cfg, db, books, call.scope);
    RevalidatedMeans(cfg, call, readings.commit, context);
    SubmissionPrepared(cfg, book, facts, call, readings.prepare, q, context);
    PreparedMeans(book.spec, facts, call, readings.prepare, q);
    if Prepare(book.spec, facts, call, readings.prepare, q).Ok? {
      var x := Prepare(book.spec, facts, call, readings.prepare, q).value;
      forall after
        ensures Submission(book.spec, call.scope, facts, context.actor, context.roles, q, after) <==>
                  Decide(book.spec, call.scope, facts, x).Ok? && Decide(book.spec, call.scope, facts, x).value.facts == after
      {
        DecidedSubmits(book.spec, call.scope, facts, x, after);
      }
      if Decide(book.spec, call.scope, facts, x).Ok? {
        var d := Decide(book.spec, call.scope, facts, x).value;
        assert Submission(book.spec, call.scope, facts, context.actor, context.roles, q, d.facts);
        SecondValidation(cfg, db, books, call, x);
        NoCollision(cfg, db, books, app, |d.events|);
      }
    }
  }

  lemma SubmissionPrepared(cfg: Config, book: Book, facts: seq<RawRecord>, call: Call, reading: Reading, q: Request, context: Context)
    requires Checked(book.spec) && CheckedRecords(book.spec, call.scope, facts) && Resolve(call, Write, reading) == Ok(context)
    ensures (exists after :: Submission(book.spec, call.scope, facts, context.actor, context.roles, q, after))
              ==> Prepare(book.spec, facts, call, reading, q).Ok?
    ensures Prepare(book.spec, facts, call, reading, q).Ok? ==> Prepare(book.spec, facts, call, reading, q).value.context == context
  {
    hide Checked, CheckedRecords, Resolve, Prepare, Names, Target, Writes, RequestReads, Ready, OneSteps, Publishable, Live, Bound;
    ResolvedMeans(call, Write, reading);
    PreparedMeans(book.spec, facts, call, reading, q);
    if exists after :: Submission(book.spec, call.scope, facts, context.actor, context.roles, q, after) {
      var after :| Submission(book.spec, call.scope, facts, context.actor, context.roles, q, after);
      var c, m, p, row :|
        && Names(book.spec, q.command, c, m, p) && Target(m, q, facts, row)
        && Writes(p, context.actor, context.roles, row) && RequestReads(book.spec, c, m, q) && Ready(c, m, row)
        && OneSteps(c, m, q.inputs, row, facts, after) && Publishable(book.spec, call.scope, after);
      PrepareDenies(book.spec, facts, call, reading, q, c, m, p);
    }
  }

  // ------------------------------------------------------------ offers

  /** A record is offered for a command exactly when the caller may read it, may write it, and it is ready. */
  lemma OfferedExactly(spec: Spec, facts: seq<RawRecord>, context: Context, c: Command, m: StateMachine, p: Policy, record: RecordId)
    requires Checked(spec) && CheckedRecords(spec, context.scope, facts) && Names(spec, c.id, c, m, p)
    ensures Offered(OffersOf(spec, facts, context, spec.commands), c, record) <==>
              exists row :: row in facts && row.table == m.table && row.id == record
                            && Reads(p, context.actor, context.roles, row) && Writes(p, context.actor, context.roles, row) && Ready(c, m, row)
  {
    hide Checked, CheckedRecords, OffersOf, EligibleIds, Offered, Eligible, Reads, Writes, Ready, FindMachine, FindPolicy, FindCommand, CommandChecked, GuardsHold, TransitionOpen, Allows, Readable;
    var ids := EligibleIds(facts, c, m, p, context);
    var offers := OffersOf(spec, facts, context, spec.commands);
    NamesFound(spec, c.id, c, m, p);
    OffersAre(spec, facts, context, spec.commands);
    EligibleIdsAre(facts, c, m, p, context);
    forall i | 0 <= i < |facts|
      ensures Eligible(c, m, p, context, facts[i]) <==>
                Reads(p, context.actor, context.roles, facts[i]) && Writes(p, context.actor, context.roles, facts[i]) && Ready(c, m, facts[i])
    {
      RowNormal(spec, context.scope, facts, facts[i]);
      EligibleMeans(c, m, p, context, facts[i]);
      ReadsMeans(p, context, facts[i]);
      WritesMeans(p, context, facts[i]);
      ReadyMeans(c, m, facts[i]);
    }
    OfferedIn(offers, c, ids, record);
    forall i | 0 <= i < |facts| && Writes(p, context.actor, context.roles, facts[i])
      ensures facts[i].table == m.table
    {
      WritesTable(p, context, facts[i]);
    }
    if record in ids {
      var i :| 0 <= i < |facts| && facts[i].id == record && Eligible(c, m, p, context, facts[i]);
      assert facts[i] in facts;
    }
    if exists row :: row in facts && row.table == m.table && row.id == record
                     && Reads(p, context.actor, context.roles, row) && Writes(p, context.actor, context.roles, row) && Ready(c, m, row) {
      var row :| row in facts && row.table == m.table && row.id == record
                 && Reads(p, context.actor, context.roles, row) && Writes(p, context.actor, context.roles, row) && Ready(c, m, row);
      var i :| 0 <= i < |facts| && facts[i] == row;
      assert Eligible(c, m, p, context, facts[i]);
    }
  }

  lemma WritesTable(p: Policy, context: Context, row: RawRecord)
    requires Writes(p, context.actor, context.roles, row)
    ensures row.table == p.table
  {
  }

  lemma OfferedIn(offers: seq<Offer>, c: Command, ids: seq<RecordId>, record: RecordId)
    requires forall other :: Offer(c, other) in offers <==> other != [] && other == ids
    ensures Offered(offers, c, record) <==> record in ids
  {
    if Offered(offers, c, record) {
      var i :| 0 <= i < |offers| && offers[i].command == c && record in offers[i].records;
      assert offers[i] == Offer(c, offers[i].records);
      assert Offer(c, offers[i].records) in offers;
    }
    if record in ids {
      assert Offer(c, ids) in offers;
      var i :| 0 <= i < |offers| && offers[i] == Offer(c, ids);
      assert record in offers[i].records;
    }
  }
}
