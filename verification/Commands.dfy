/**
 Typed commands: one declared transition of one governed record, decided from the current facts,
 the current policy and a bounded request. Nothing here writes anything.
 */
module Commands {
  import opened Wrappers
  import opened Sorting
  import opened AppSpec
  import opened Decimals
  import opened Records
  import opened Validation
  import opened Authority

  datatype Request = Request(command: int, record: RecordId, key: string, inputs: Values)

  datatype CommandError =
    | Unauthorized(cause: AuthorityError)
    | Denied
    | OutOfScope
    | UnknownCommand
    | InvalidInput
    | LimitExceeded
    | InvalidTransition
    | GuardFailed
    | InvalidFacts

  datatype Prepared = Prepared(context: Context, policy: Policy, command: Command, machine: StateMachine, request: Request)

  /** What a committed event tells: its identity and the declared projection of the changed record. */
  datatype Event = Event(id: int, payload: Values)

  datatype Decision = Decision(row: RawRecord, facts: seq<RawRecord>, events: seq<Event>)

  // ------------------------------------------------------------ preparing

  predicate KeyChar(c: char) {
    'a' <= c <= 'z' || 'A' <= c <= 'Z' || '0' <= c <= '9' || c == '_' || c == '-'
  }

  predicate ValidKey(key: string) {
    0 < |key| <= 96 && forall i :: 0 <= i < |key| ==> KeyChar(key[i])
  }

  function RequestBytes(q: Request): nat {
    64 + |q.key| + IdBytes(q.command) + IdBytes(q.record) + EntriesBytes(q.inputs.Keys, q.inputs)
  }

  function RequestNodes(q: Request): nat {
    9 + EntriesNodes(q.inputs.Keys, q.inputs)
  }

  /** Bytes of the definition that every intent embeds, counted per declared entity. */
  function SpecBytes(spec: Spec): nat {
    128 + 64 * |spec.tables| + 128 * FieldCount(spec.tables) + 160 * |spec.captures| + 256 * |spec.policies|
    + 160 * |spec.constraints| + 256 * |spec.machines| + 512 * |spec.commands|
  }

  /** Containers, strings and scalars of that definition, counted per declared entity. */
  function SpecNodes(spec: Spec): nat {
    32 + 7 * |spec.tables| + 9 * FieldCount(spec.tables) + 9 * |spec.captures| + 24 * |spec.policies| + 13 * |spec.constraints|
    + 20 * |spec.machines| + 40 * |spec.commands|
  }

  predicate RequestFits(q: Request) {
    RequestBytes(q) <= MAX_BYTES && RequestNodes(q) <= MAX_NODES
  }

  predicate IntentFits(spec: Spec, q: Request) {
    SpecBytes(spec) + RequestBytes(q) <= MAX_BYTES && SpecNodes(spec) + RequestNodes(q) <= MAX_NODES
  }

  predicate InputAccepted(spec: Spec, machine: StateMachine, command: Command, field: FieldId, v: Value) {
    match (FindInput(command.inputs, field), TypeOf(spec, machine.table, field))
    case (Some(input), Some(t)) =>
      && ValueMatches(t, v)
      && (v.Text? ==> TextBytes(v.text) <= MAX_TEXT_BYTES)
      && (input.required ==> !Missing(v))
      && (forall i :: 0 <= i < |input.constraints| ==> Accepts(input.constraints[i], v))
    case _ => false
  }

  predicate InputsAccepted(spec: Spec, machine: StateMachine, command: Command, inputs: Values) {
    && (forall f :: f in inputs ==> InputAccepted(spec, machine, command, f, inputs[f]))
    && (forall i :: 0 <= i < |command.inputs| && command.inputs[i].required ==> command.inputs[i].field in inputs)
  }

  /** `prepare_command`: authority first, then the row policy, and only then the request. */
  function Prepare(spec: Spec, facts: seq<RawRecord>, call: Call, reading: Reading, q: Request): Result<Prepared, CommandError> {
    match Resolve(call, Write, reading)
    case Err(e) => Err(Unauthorized(e))
    case Ok(context) =>
      if call.scope.app != spec.app then Err(OutOfScope)
      else
        match FindCommand(spec.commands, q.command)
        case None => Err(UnknownCommand)
        case Some(command) =>
          match (FindMachine(spec.machines, command.machine), FindPolicy(spec.policies, command.policy))
          case (Some(machine), Some(policy)) =>
            (match FindRow(facts, Key(machine.table, q.record))
             case None => Err(Denied)
             case Some(row) =>
               if !Allows(policy, context, row) then Err(Denied)
               else if !ValidKey(q.key) || |q.inputs| > MAX_COMMAND_INPUTS then Err(InvalidInput)
               else if !RequestFits(q) then Err(LimitExceeded)
               else if !InputsAccepted(spec, machine, command, q.inputs) then Err(InvalidInput)
               else if !IntentFits(spec, q) then Err(LimitExceeded)
               else Ok(Prepared(context, policy, command, machine, q)))
          case _ => Err(UnknownCommand)
  }

  // ------------------------------------------------------------ deciding

  predicate TransitionOpen(command: Command, machine: StateMachine, row: RawRecord) {
    Get(row.values, machine.stateField) == Text(command.fromState) && command.fromState !in machine.terminal
  }

  predicate GuardsHold(command: Command, row: RawRecord) {
    forall i :: 0 <= i < |command.guards| ==>
      command.guards[i].field in row.values && row.values[command.guards[i].field] == command.guards[i].equals
  }

  /** The record with the inputs written over it and the state advanced. */
  function Advanced(machine: StateMachine, command: Command, inputs: Values, row: RawRecord): RawRecord {
    row.(values := (row.values + inputs)[machine.stateField := Text(command.toState)])
  }

  function Proposed(p: Prepared, row: RawRecord): RawRecord {
    Advanced(p.machine, p.command, p.request.inputs, row)
  }

  function ReplaceRow(rows: seq<RawRecord>, r: RawRecord): seq<RawRecord> {
    if rows == [] then []
    else if RecordKey(rows[0]) == RecordKey(r) then [r] + rows[1..]
    else [rows[0]] + ReplaceRow(rows[1..], r)
  }

  function EventOf(intent: EventIntent, row: RawRecord): Event {
    Event(intent.id, map f | f in intent.fields :: Get(row.values, f))
  }

  function EventsOf(intents: seq<EventIntent>, row: RawRecord): (events: seq<Event>)
    ensures |events| == |intents|
    ensures forall i :: 0 <= i < |intents| ==> events[i] == EventOf(intents[i], row)
  {
    if intents == [] then [] else [EventOf(intents[0], row)] + EventsOf(intents[1..], row)
  }

  /** `decide_command`, on a row that was prepared. */
  ghost function Decide(spec: Spec, scope: Scope, facts: seq<RawRecord>, p: Prepared): Result<Decision, CommandError> {
    match FindRow(facts, Key(p.machine.table, p.request.record))
    case None => Err(Denied)
    case Some(row) =>
      if !TransitionOpen(p.command, p.machine, row) then Err(InvalidTransition)
      else if !GuardsHold(p.command, row) then Err(GuardFailed)
      else
        match Validate(spec, scope, ReplaceRow(facts, Proposed(p, row)))
        case None => Err(InvalidFacts)
        case Some(final) =>
          match FindRow(final, Key(p.machine.table, p.request.record))
          case None => Err(InvalidFacts)
          case Some(proposed) =>
            if !Allows(p.policy, p.context, proposed) then Err(Denied)
            else Ok(Decision(proposed, final, EventsOf(p.command.events, proposed)))
  }

  method DecideCommand(spec: Spec, scope: Scope, facts: seq<RawRecord>, p: Prepared) returns (r: Result<Decision, CommandError>)
    requires FindRow(facts, Key(p.machine.table, p.request.record)).Some?
    ensures r == Decide(spec, scope, facts, p)
  {
    hide Validate, Allows, TransitionOpen;
    var row := FindRow(facts, Key(p.machine.table, p.request.record)).value;
    if !TransitionOpen(p.command, p.machine, row) {
      return Err(InvalidTransition);
    }
    for i := 0 to |p.command.guards|
      invariant forall j :: 0 <= j < i ==>
                  p.command.guards[j].field in row.values && row.values[p.command.guards[j].field] == p.command.guards[j].equals
    {
      var guard := p.command.guards[i];
      if guard.field !in row.values || row.values[guard.field] != guard.equals {
        return Err(GuardFailed);
      }
    }
    var proposed := row;
    proposed := proposed.(values := proposed.values + p.request.inputs);
    proposed := proposed.(values := proposed.values[p.machine.stateField := Text(p.command.toState)]);
    var final := ValidateRecords(spec, scope, ReplaceRow(facts, proposed));
    match final {
      case None => return Err(InvalidFacts);
      case Some(rows) =>
        match FindRow(rows, Key(p.machine.table, p.request.record)) {
          case None => return Err(InvalidFacts);
          case Some(written) =>
            if !Allows(p.policy, p.context, written) {
              return Err(Denied);
            }
            r := Ok(Decision(written, rows, EventsOf(p.command.events, written)));
        }
    }
  }
}
