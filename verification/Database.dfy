/**
 The transactional store as tables and as operations on them: bootstrap, snapshot, execute and
 receipt recovery. An operation is judged by the tables it leaves and the answer it gives.
 */
module Database {
  import opened Wrappers
  import opened Sorting
  import opened AppSpec
  import opened Records
  import opened Authority
  import opened Commands

  /** The content address of a definition; distinct definitions have distinct addresses. */
  datatype Identity = Digest(definition: Spec)

  datatype Config = Config(tenant: int, binding: string)

  datatype Application = Application(identity: Identity, revision: nat, facts: seq<RawRecord>)

  datatype ReceiptKey = ReceiptKey(app: int, actor: string, key: string)

  /** What a request means: the same key may never stand for two of these. */
  datatype Intent = Intent(identity: Identity, expected: nat, definition: Spec, command: int, record: RecordId, inputs: Values)

  datatype Envelope = Envelope(expected: nat, request: Request)

  datatype Receipt = Receipt(
    command: int, record: RecordId, state: string, key: string, replayed: bool, revision: nat, expected: nat,
    identity: Identity)

  datatype ReceiptRow = ReceiptRow(intent: Intent, envelope: Envelope, receipt: Receipt)

  datatype Audit = Audit(
    actor: string, scope: Scope, binding: string, membershipRevision: nat, policyRevision: nat, command: int,
    record: RecordId, expected: nat, revision: nat, identity: Identity, time: nat)

  datatype EventRow = EventRow(event: Event, revision: nat, identity: Identity)

  datatype AuditKey = AuditKey(app: int, revision: nat)

  datatype EventKey = EventKey(app: int, revision: nat, index: nat)

  datatype Db = Db(
    releases: map<(int, Identity), Spec>,
    applications: map<int, Application>,
    receipts: map<ReceiptKey, ReceiptRow>,
    audit: map<AuditKey, Audit>,
    events: map<EventKey, EventRow>)

  datatype StoreError =
    | Storage
    | ScopeMismatch
    | AppNotFound
    | AppAlreadyExists
    | CorruptSnapshot
    | AuthorityDenied(cause: AuthorityError)
    | Rejected(reason: CommandError)
    | Conflict
    | IntentConflict
    | BindingMismatch
    | AuthorityChanged
    | RevisionOverflow
    | InvalidReceiptKey
    | InvalidFinalFacts

  /** Where a storage failure strikes: before the transaction reads, or after one of its four writes. */
  datatype Stage = AtStart | AtFacts | AtAudit | AtEvents | AtReceipt

  /** Whether the acknowledgement of a commit arrives; when it does not, the commit may have happened. */
  datatype Ack = Acked | Unacked(applied: bool)

  datatype Snapshot = Snapshot(spec: Spec, facts: seq<RawRecord>, revision: nat, identity: Identity)

  // ------------------------------------------------------------ reading

  /** `load`: stored facts are trusted only after they pass every check again, bit for bit. */
  ghost function Load(db: Db, scope: Scope): Result<Snapshot, StoreError> {
    if scope.app !in db.applications then Err(AppNotFound)
    else
      var app := db.applications[scope.app];
      if (scope.app, app.identity) !in db.releases then Err(AppNotFound)
      else
        var spec := db.releases[(scope.app, app.identity)];
        if app.revision == 0 || !Checked(spec) || app.identity != Digest(spec) then Err(CorruptSnapshot)
        else if Validate(spec, scope, app.facts) != Some(app.facts) then Err(CorruptSnapshot)
        else Ok(Snapshot(spec, app.facts, app.revision, app.identity))
  }

  /** The context behind a reading, when it selects this store. */
  function Authorised(cfg: Config, call: Call, reading: Reading): Result<Context, StoreError> {
    match Resolve(call, Write, reading)
    case Err(e) => Err(AuthorityDenied(e))
    case Ok(context) => if context.binding != cfg.binding then Err(BindingMismatch) else Ok(context)
  }

  function Revalidated(cfg: Config, call: Call, reading: Reading, previous: Context): Option<StoreError> {
    match Authorised(cfg, call, reading)
    case Err(e) => Some(e)
    case Ok(current) => if current != previous then Some(AuthorityChanged) else None
  }

  function IntentOf(snapshot: Snapshot, expected: nat, q: Request): Intent {
    Intent(snapshot.identity, expected, snapshot.spec, q.command, q.record, q.inputs)
  }

  predicate ReachesState(spec: Spec, command: int, state: string) {
    exists i :: 0 <= i < |spec.commands| && spec.commands[i].id == command && spec.commands[i].toState == state
  }

  /** `validate_receipt`. */
  predicate ReceiptFitsRequest(snapshot: Snapshot, q: Request, expected: nat, receipt: Receipt) {
    && receipt.expected == expected
    && receipt.key == q.key
    && !receipt.replayed
    && receipt.revision == expected + 1
    && receipt.revision <= snapshot.revision
    && receipt.identity == snapshot.identity
    && receipt.command == q.command
    && receipt.record == q.record
    && ReachesState(snapshot.spec, q.command, receipt.state)
  }

  // ------------------------------------------------------------ writing

  function NewReceipt(snapshot: Snapshot, p: Prepared, expected: nat): Receipt {
    Receipt(p.command.id, p.request.record, p.command.toState, p.request.key, false, snapshot.revision + 1, expected,
            snapshot.identity)
  }

  function NewAudit(snapshot: Snapshot, call: Call, p: Prepared, expected: nat): Audit {
    Audit(p.context.actor, call.scope, p.context.binding, p.context.membershipRevision, p.policy.revision,
          p.request.command, p.request.record, expected, snapshot.revision + 1, snapshot.identity, call.now)
  }

  function EventRows(app: int, revision: nat, identity: Identity, events: seq<Event>): map<EventKey, EventRow> {
    map i | 0 <= i < |events| :: EventKey(app, revision, i) := EventRow(events[i], revision, identity)
  }

  /** The tables after the four writes of one commit. */
  function Written(db: Db, call: Call, snapshot: Snapshot, expected: nat, p: Prepared, d: Decision, final: seq<RawRecord>): Db {
    var app := call.scope.app;
    var revision := snapshot.revision + 1;
    Db(db.releases,
       db.applications[app := Application(snapshot.identity, revision, final)],
       db.receipts[ReceiptKey(app, p.context.actor, p.request.key) :=
                     ReceiptRow(IntentOf(snapshot, expected, p.request), Envelope(expected, p.request),
                                NewReceipt(snapshot, p, expected))],
       db.audit[AuditKey(app, revision) := NewAudit(snapshot, call, p, expected)],
       db.events + EventRows(app, revision, snapshot.identity, d.events))
  }

  /** A primary key that a commit is about to insert is taken already. */
  predicate Collides(db: Db, app: int, revision: nat, events: nat) {
    || AuditKey(app, revision) in db.audit
    || exists i :: 0 <= i < events && EventKey(app, revision, i) in db.events
  }

  /** The transaction after it loaded its snapshot: an exact retry replays, anything else commits or fails. */
  ghost function ExecuteOn(cfg: Config, db: Db, call: Call, readings: Readings, expected: nat, q: Request, fault: Option<Stage>,
                           context: Context, snapshot: Snapshot): (Db, Result<Receipt, StoreError>)
  {
    match Prepare(snapshot.spec, snapshot.facts, call, readings.prepare, q)
    case Err(e) => (db, Err(Rejected(e)))
    case Ok(p) =>
      var key := ReceiptKey(call.scope.app, context.actor, q.key);
      if p.context != context then (db, Err(AuthorityChanged))
      else if key in db.receipts then (db, Replay(cfg, db.receipts[key], call, readings, expected, q, context, snapshot))
      else if expected != snapshot.revision then (db, Err(Conflict))
      else
        match Decide(snapshot.spec, call.scope, snapshot.facts, p)
        case Err(e) => (db, Err(Rejected(e)))
        case Ok(d) =>
          match Validate(snapshot.spec, call.scope, ReplaceRow(snapshot.facts, d.row))
          case None => (db, Err(InvalidFinalFacts))
          case Some(final) =>
            if snapshot.revision + 1 > I64_MAX then (db, Err(RevisionOverflow))
            else if fault.Some? || Collides(db, call.scope.app, snapshot.revision + 1, |d.events|) then (db, Err(Storage))
            else
              match Revalidated(cfg, call, readings.commit, context)
              case Some(e) => (db, Err(e))
              case None => (Written(db, call, snapshot, expected, p, d, final), Ok(NewReceipt(snapshot, p, expected)))
  }

  function Replay(cfg: Config, row: ReceiptRow, call: Call, readings: Readings, expected: nat, q: Request, context: Context,
                  snapshot: Snapshot): Result<Receipt, StoreError>
  {
    if row.envelope.request.key != q.key then Err(CorruptSnapshot)
    else if row.intent != IntentOf(snapshot, expected, q) then Err(IntentConflict)
    else if !ReceiptFitsRequest(snapshot, q, expected, row.receipt) then Err(CorruptSnapshot)
    else
      match Revalidated(cfg, call, readings.commit, context)
      case Some(e) => Err(e)
      case None => Ok(row.receipt.(replayed := true))
  }

  /** `execute_in`: what the transaction decides before it is committed or rolled back. */
  ghost function ExecuteIn(cfg: Config, db: Db, call: Call, readings: Readings, expected: nat, q: Request, fault: Option<Stage>)
    : (Db, Result<Receipt, StoreError>)
  {
    match Authorised(cfg, call, readings.entry)
    case Err(e) => (db, Err(e))
    case Ok(context) =>
      match Load(db, call.scope)
      case Err(e) => (db, Err(e))
      case Ok(snapshot) => ExecuteOn(cfg, db, call, readings, expected, q, fault, context, snapshot)
  }

  /** `execute_at`: commit what succeeded, roll back what did not. */
  ghost function Execute(cfg: Config, db: Db, call: Call, readings: Readings, expected: nat, q: Request, fault: Option<Stage>,
                         ack: Ack): (Db, Result<Receipt, StoreError>)
  {
    if call.scope.tenant != cfg.tenant then (db, Err(ScopeMismatch))
    else if fault == Some(AtStart) then (db, Err(Storage))
    else
      var (next, r) := ExecuteIn(cfg, db, call, readings, expected, q, fault);
      match (r, ack)
      case (Err(_), _) => (db, r)
      case (Ok(_), Acked) => (next, r)
      case (Ok(_), Unacked(applied)) => (if applied then next else db, Err(Storage))
  }

  /** `receipt`: recovery by key, under the authority and the row policy of now. */
  ghost function ReadReceipt(cfg: Config, db: Db, call: Call, readings: Readings, key: string): Result<Option<Receipt>, StoreError> {
    if call.scope.tenant != cfg.tenant then Err(ScopeMismatch)
    else
      match Authorised(cfg, call, readings.entry)
      case Err(e) => Err(e)
      case Ok(context) =>
        if !ValidKey(key) then Err(InvalidReceiptKey)
        else if ReceiptKey(call.scope.app, context.actor, key) !in db.receipts then Ok(None)
        else
          var row := db.receipts[ReceiptKey(call.scope.app, context.actor, key)];
          if row.envelope.request.key != key then Err(CorruptSnapshot)
          else
            match Load(db, call.scope)
            case Err(e) => Err(e)
            case Ok(snapshot) => Recover(cfg, row, call, readings, context, snapshot)
  }

  function Recover(cfg: Config, row: ReceiptRow, call: Call, readings: Readings, context: Context, snapshot: Snapshot)
    : Result<Option<Receipt>, StoreError>
  {
    var q := row.envelope.request;
    match Prepare(snapshot.spec, snapshot.facts, call, readings.prepare, q)
    case Err(e) => Err(Rejected(e))
    case Ok(p) =>
      if p.context != context then Err(AuthorityChanged)
      else if IntentOf(snapshot, row.envelope.expected, q) != row.intent then Err(IntentConflict)
      else if !ReceiptFitsRequest(snapshot, q, row.envelope.expected, row.receipt) then Err(CorruptSnapshot)
      else
        match Revalidated(cfg, call, readings.commit, context)
        case Some(e) => Err(e)
        case None => Ok(Some(row.receipt.(replayed := true)))
  }

  /** `bootstrap`: provisioning is repeatable and never overwrites. */
  ghost function Bootstrap(cfg: Config, db: Db, spec: Spec, scope: Scope, facts: seq<RawRecord>, ack: Ack)
    : (Db, Result<Snapshot, StoreError>)
  {
    if scope.tenant != cfg.tenant then (db, Err(ScopeMismatch))
    else
      match Validate(spec, scope, facts)
      case None => (db, Err(InvalidFinalFacts))
      case Some(checked) =>
        var app := spec.app;
        if app in db.applications
           && (db.applications[app].identity != Digest(spec) || db.applications[app].facts != checked) then (db, Err(AppAlreadyExists))
        else if app !in db.applications && (app, Digest(spec)) in db.releases then (db, Err(Storage))
        else
          var next := if app in db.applications then db
                      else db.(releases := db.releases[(app, Digest(spec)) := spec],
                               applications := db.applications[app := Application(Digest(spec), 1, checked)]);
          match (Load(next, scope), ack)
          case (Err(e), _) => (db, Err(e))
          case (Ok(snapshot), Acked) => (next, Ok(snapshot))
          case (Ok(_), Unacked(applied)) => (if applied then next else db, Err(Storage))
  }
}
