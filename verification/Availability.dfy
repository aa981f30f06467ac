/**
 The commands offered for each record, computed from the same policy, state and guards as execution:
 what is offered is open, and what is open to a reader is offered.
 */
module Availability {
  import opened Wrappers
  import opened Sorting
  import opened AppSpec
  import opened Records
  import opened Authority
  import opened Commands
  import opened CommandProofs

  /** Rows are readable by their owner and by the roles their policy names for reading. */
  predicate Readable(policy: Policy, context: Context, row: RawRecord) {
    && row.scope == context.scope
    && row.table == policy.table
    && (Get(row.values, policy.ownerField) == Text(context.actor) || policy.readRoles * context.roles != {})
  }

  predicate Eligible(command: Command, machine: StateMachine, policy: Policy, context: Context, row: RawRecord) {
    && Readable(policy, context, row) && Allows(policy, context, row)
    && TransitionOpen(command, machine, row) && GuardsHold(command, row)
  }

  /** The eligible records among `rows`, in canonical order. */
  function EligibleIds(rows: seq<RawRecord>, command: Command, machine: StateMachine, policy: Policy, context: Context): seq<RecordId> {
    if rows == [] then []
    else
      var row := rows[|rows| - 1];
      EligibleIds(rows[..|rows| - 1], command, machine, policy, context)
      + (if Eligible(command, machine, policy, context, row) then [row.id] else [])
  }

  datatype Offer = Offer(command: Command, records: seq<RecordId>)

  /** What a command offers, when it offers anything. */
  function OffersOf(spec: Spec, facts: seq<RawRecord>, context: Context, commands: seq<Command>): seq<Offer> {
    if commands == [] then []
    else
      var c := commands[|commands| - 1];
      var rest := OffersOf(spec, facts, context, commands[..|commands| - 1]);
      match (FindMachine(spec.machines, c.machine), FindPolicy(spec.policies, c.policy))
      case (Some(machine), Some(policy)) =>
        var ids := EligibleIds(facts, c, machine, policy, context);
        if ids == [] then rest else rest + [Offer(c, ids)]
      case _ => rest
  }

  /** `available_command_records`: grants to read and to write are resolved apart and must agree. */
  method AvailableCommandRecords(spec: Spec, facts: seq<RawRecord>, call: Call, read: Reading, write: Reading)
    returns (r: Result<seq<Offer>, CommandError>)
    requires Checked(spec)
    ensures r.Ok? <==> Resolve(call, Read, read).Ok? && Resolve(call, Read, read) == Resolve(call, Write, write) && call.scope.app == spec.app
    ensures r.Ok? ==> r.value == OffersOf(spec, facts, Resolve(call, Write, write).value, spec.commands)
  {
    hide Resolve, Eligible, TablesChecked, ConstraintsChecked, CapturesChecked, PoliciesChecked, MachinesChecked, VersionChecked;
    var reader := Resolve(call, Read, read);
    var writer := Resolve(call, Write, write);
    match (reader, writer) {
      case (Ok(readContext), Ok(context)) =>
        if readContext != context {
          return Err(Unauthorized(Revoked));
        }
        if call.scope.app != spec.app {
          return Err(OutOfScope);
        }
        var available: seq<Offer> := [];
        for i := 0 to |spec.commands|
          invariant available == OffersOf(spec, facts, context, spec.commands[..i])
        {
          assert spec.commands[..i + 1][..i] == spec.commands[..i];
          var command := spec.commands[i];
          assert CommandChecked(spec, command);
          var machine := FindMachine(spec.machines, command.machine).value;
          var policy := FindPolicy(spec.policies, command.policy).value;
          var eligible: seq<RecordId> := [];
          for j := 0 to |facts|
            invariant eligible == EligibleIds(facts[..j], command, machine, policy, context)
          {
            assert facts[..j + 1][..j] == facts[..j];
            if Eligible(command, machine, policy, context, facts[j]) {
              eligible := eligible + [facts[j].id];
            }
          }
          assert facts[..|facts|] == facts;
          if eligible != [] {
            available := available + [Offer(command, eligible)];
          }
        }
        assert spec.commands[..|spec.commands|] == spec.commands;
        r := Ok(available);
      case (Err(e), _) => return Err(Unauthorized(e));
      case (_, Err(e)) => return Err(Unauthorized(e));
    }
  }

  lemma {:induction false} EligibleIdsAre(rows: seq<RawRecord>, command: Command, machine: StateMachine, policy: Policy, context: Context)
    ensures forall id :: id in EligibleIds(rows, command, machine, policy, context) <==>
              exists i :: 0 <= i < |rows| && rows[i].id == id && Eligible(command, machine, policy, context, rows[i])
  {
    hide Eligible;
    if rows != [] {
      var n := |rows| - 1;
      EligibleIdsAre(rows[..n], command, machine, policy, context);
      assert forall i :: 0 <= i < n ==> rows[..n][i] == rows[i];
    }
  }

  lemma {:induction false} OffersAre(spec: Spec, facts: seq<RawRecord>, context: Context, commands: seq<Command>)
    ensures forall c, ids :: Offer(c, ids) in OffersOf(spec, facts, context, commands) <==>
              && c in commands && ids != []
              && FindMachine(spec.machines, c.machine).Some? && FindPolicy(spec.policies, c.policy).Some?
              && ids == EligibleIds(facts, c, FindMachine(spec.machines, c.machine).value, FindPolicy(spec.policies, c.policy).value, context)
  {
    hide EligibleIds, FindMachine, FindPolicy;
    if commands != [] {
      var n := |commands| - 1;
      OffersAre(spec, facts, context, commands[..n]);
      assert commands == commands[..n] + [commands[n]];
    }
  }

  /** The record is among those offered for the command. */
  predicate Offered(offers: seq<Offer>, command: Command, record: RecordId) {
    exists i :: 0 <= i < |offers| && offers[i].command == command && record in offers[i].records
  }

  lemma CommandUnique(spec: Spec, c: Command)
    requires StrictlySorted(CommandKey, spec.commands) && c in spec.commands
    ensures FindCommand(spec.commands, c.id) == Some(c)
  {
    CommandFound(spec.commands, c);
  }

  lemma {:induction false} CommandFound(commands: seq<Command>, c: Command)
    requires StrictlySorted(CommandKey, commands) && c in commands
    ensures FindCommand(commands, c.id) == Some(c)
  {
    if commands[0] != c {
      var i :| 0 < i < |commands| && commands[i] == c;
      assert KeyLess(CommandKey(commands[0]), CommandKey(commands[i]));
      assert commands[1..][i - 1] == c;
      CommandFound(commands[1..], c);
    }
  }

  /**
   Offers agree with execution. For a request with acceptable inputs on a record the caller may read:
   if the command is offered, nothing but the final facts can stand in its way; if it is not, the
   request is refused.
   */
  lemma OfferedIsOpen(spec: Spec, scope: Scope, facts: seq<RawRecord>, call: Call, reading: Reading, command: Command, q: Request)
    requires Checked(spec) && CheckedRecords(spec, scope, facts) && call.scope == scope
    requires Resolve(call, Write, reading).Ok? && command in spec.commands && q.command == command.id
    requires ValidKey(q.key) && |q.inputs| <= MAX_COMMAND_INPUTS && RequestFits(q) && IntentFits(spec, q)
    requires FindMachine(spec.machines, command.machine).Some? && FindPolicy(spec.policies, command.policy).Some?
    requires InputsAccepted(spec, FindMachine(spec.machines, command.machine).value, command, q.inputs)
    ensures var context := Resolve(call, Write, reading).value;
            var machine := FindMachine(spec.machines, command.machine).value;
            var policy := FindPolicy(spec.policies, command.policy).value;
            var row := FindRow(facts, Key(machine.table, q.record));
            var p := Prepare(spec, facts, call, reading, q);
            (row.Some? && Readable(policy, context, row.value)) ==>
              (Offered(OffersOf(spec, facts, context, spec.commands), command, q.record) <==>
               (p.Ok? && (Decide(spec, scope, facts, p.value).Ok? || Decide(spec, scope, facts, p.value) == Err(InvalidFacts))))
  {
    hide Checked, CheckedRecords, Resolve, InputsAccepted, RequestFits, IntentFits, ValidKey, TransitionOpen, GuardsHold, Readable, Allows,
      Validate, OffersOf, Offered, Eligible, FindMachine, FindPolicy, FindRow, Proposed, Prepare, Decide, EligibleIds;
    var context := Resolve(call, Write, reading).value;
    var machine := FindMachine(spec.machines, command.machine).value;
    var policy := FindPolicy(spec.policies, command.policy).value;
    var key := Key(machine.table, q.record);
    if FindRow(facts, key).Some? {
      var row := FindRow(facts, key).value;
      OfferedMeans(spec, scope, facts, context, command, q.record, row);
      PrepareMeans(spec, scope, facts, call, reading, command, q, row);
      EligibleMeans(command, machine, policy, context, row);
      if Allows(policy, context, row) {
        var p := Prepared(context, policy, command, machine, q);
        BoundFrom(spec, scope, facts, p);
        DecideOpen(spec, scope, facts, p);
      }
    }
  }

  lemma EligibleMeans(command: Command, machine: StateMachine, policy: Policy, context: Context, row: RawRecord)
    ensures Eligible(command, machine, policy, context, row) <==>
              Readable(policy, context, row) && Allows(policy, context, row) && TransitionOpen(command, machine, row) && GuardsHold(command, row)
  {
  }

  lemma OfferedMeans(spec: Spec, scope: Scope, facts: seq<RawRecord>, context: Context, command: Command, record: RecordId, row: RawRecord)
    requires Checked(spec) && CheckedRecords(spec, scope, facts) && command in spec.commands
    requires FindMachine(spec.machines, command.machine).Some? && FindPolicy(spec.policies, command.policy).Some?
    requires FindRow(facts, Key(FindMachine(spec.machines, command.machine).value.table, record)) == Some(row)
    ensures Offered(OffersOf(spec, facts, context, spec.commands), command, record) <==>
              Eligible(command, FindMachine(spec.machines, command.machine).value, FindPolicy(spec.policies, command.policy).value, context, row)
  {
    hide Checked, CheckedRecords, GuardsHold, TransitionOpen, OffersOf, EligibleIds, FindMachine, FindPolicy, FindRow, Allows;
    var machine := FindMachine(spec.machines, command.machine).value;
    var policy := FindPolicy(spec.policies, command.policy).value;
    var ids := EligibleIds(facts, command, machine, policy, context);
    var offers := OffersOf(spec, facts, context, spec.commands);
    OffersAre(spec, facts, context, spec.commands);
    EligibleIdsAre(facts, command, machine, policy, context);
    SameTable(spec, command);
    if Eligible(command, machine, policy, context, row) {
      var i :| 0 <= i < |facts| && facts[i] == row;
      assert record in ids;
      assert Offer(command, ids) in offers;
      var j :| 0 <= j < |offers| && offers[j] == Offer(command, ids);
      assert record in offers[j].records;
    }
    if Offered(offers, command, record) {
      var j :| 0 <= j < |offers| && offers[j].command == command && record in offers[j].records;
      assert offers[j] == Offer(command, offers[j].records) && offers[j] in offers;
      var i :| 0 <= i < |facts| && facts[i].id == record && Eligible(command, machine, policy, context, facts[i]);
      CheckedDistinct(spec, scope, facts);
      FindRowUnique(facts, facts[i]);
    }
  }

  lemma SameTable(spec: Spec, command: Command)
    requires Checked(spec) && command in spec.commands
    ensures CommandChecked(spec, command)
    ensures FindMachine(spec.machines, command.machine).Some? && FindPolicy(spec.policies, command.policy).Some?
    ensures FindPolicy(spec.policies, command.policy).value.table == FindMachine(spec.machines, command.machine).value.table
  {
    hide TablesChecked, ConstraintsChecked, CapturesChecked, PoliciesChecked, MachinesChecked, VersionChecked;
  }

  lemma PrepareMeans(spec: Spec, scope: Scope, facts: seq<RawRecord>, call: Call, reading: Reading, command: Command, q: Request, row: RawRecord)
    requires Checked(spec) && CheckedRecords(spec, scope, facts) && call.scope == scope
    requires Resolve(call, Write, reading).Ok? && command in spec.commands && q.command == command.id
    requires ValidKey(q.key) && |q.inputs| <= MAX_COMMAND_INPUTS && RequestFits(q) && IntentFits(spec, q)
    requires FindMachine(spec.machines, command.machine).Some? && FindPolicy(spec.policies, command.policy).Some?
    requires InputsAccepted(spec, FindMachine(spec.machines, command.machine).value, command, q.inputs)
    requires FindRow(facts, Key(FindMachine(spec.machines, command.machine).value.table, q.record)) == Some(row)
    ensures var context := Resolve(call, Write, reading).value;
            var machine := FindMachine(spec.machines, command.machine).value;
            var policy := FindPolicy(spec.policies, command.policy).value;
            Prepare(spec, facts, call, reading, q)
            == if Allows(policy, context, row) then Ok(Prepared(context, policy, command, machine, q)) else Err(Denied)
  {
    hide Resolve, InputsAccepted, RequestFits, IntentFits, ValidKey, Allows, FindMachine, FindPolicy, FindRow, FindCommand, CheckedRecords,
      TablesChecked, ConstraintsChecked, CapturesChecked, PoliciesChecked, MachinesChecked, VersionChecked, CommandChecked, StrictlySorted;
    CommandUnique(spec, command);
    ScopeOfFacts(spec, scope, facts);
  }

  lemma ScopeOfFacts(spec: Spec, scope: Scope, facts: seq<RawRecord>)
    requires CheckedRecords(spec, scope, facts)
    ensures scope.app == spec.app
  {
  }

  lemma BoundFrom(spec: Spec, scope: Scope, facts: seq<RawRecord>, p: Prepared)
    requires Checked(spec) && p.command in spec.commands && p.request.command == p.command.id
    requires FindMachine(spec.machines, p.command.machine) == Some(p.machine)
    requires FindPolicy(spec.policies, p.command.policy) == Some(p.policy)
    requires ValidKey(p.request.key) && |p.request.inputs| <= MAX_COMMAND_INPUTS && RequestFits(p.request) && IntentFits(spec, p.request)
    requires InputsAccepted(spec, p.machine, p.command, p.request.inputs)
    ensures Bound(spec, p)
  {
    hide InputsAccepted, RequestFits, IntentFits, ValidKey, FindMachine, FindPolicy, FindCommand,
      TablesChecked, ConstraintsChecked, CapturesChecked, PoliciesChecked, MachinesChecked, VersionChecked, CommandChecked, StrictlySorted;
    CommandUnique(spec, p.command);
  }

  /** Once a transition is open and its guards hold, only the final facts can refuse it. */
  lemma DecideOpen(spec: Spec, scope: Scope, facts: seq<RawRecord>, p: Prepared)
    requires Checked(spec) && Bound(spec, p) && CheckedRecords(spec, scope, facts)
    requires FindRow(facts, Key(p.machine.table, p.request.record)).Some?
    requires Allows(p.policy, p.context, FindRow(facts, Key(p.machine.table, p.request.record)).value)
    ensures var row := FindRow(facts, Key(p.machine.table, p.request.record)).value;
            var d := Decide(spec, scope, facts, p);
            (d.Ok? || d == Err(InvalidFacts)) <==> TransitionOpen(p.command, p.machine, row) && GuardsHold(p.command, row)
  {
    hide Checked, CheckedRecords, Bound, ValidRows, Canonical, GuardsHold, TransitionOpen, Allows, ReplaceRow, Advances, Proposed, FindRow;
    var key := Key(p.machine.table, p.request.record);
    var row := FindRow(facts, key).value;
    if TransitionOpen(p.command, p.machine, row) {
      var next := Proposed(p, row);
      ProposedNormal(spec, scope, facts, p, row);
      ProposedAdvances(spec, scope, facts, p, row);
      ProposedIdentity(p, row);
      ReplaceRowCanonical(spec, scope, facts, next);
      CheckedDistinct(spec, scope, facts);
      ReplaceRowFind(facts, next);
      AllowsKept(spec, p, row, next, p.context);
    }
  }
}
