/**
 The HTTP boundary of one released application: which store answers a client may take as final, and
 what an answered receipt proves about the journal.
 */
module HostApi {
  import opened Wrappers
  import opened Sorting
  import opened AppSpec
  import opened Records
  import opened Decimals
  import opened Authority
  import opened Commands
  import opened CommandProofs
  import opened Database
  import opened Journal
  import opened Histories
  import opened JournalRuns
  import opened StoreRuns

  /** A host serves one application at one pinned release. */
  datatype Host = Host(cfg: Config, scope: Scope, release: Identity)

  datatype Code = ApiDenied | ApiUnsupported | ApiConflict | ApiValidation | ApiNotFound | ApiInternal

  /** The immutable body of a command request. */
  datatype Body = Body(command: int, record: RecordId, key: string, inputs: Values, expected: nat, release: Identity)

  datatype ReceiptDto = ReceiptDto(
    app: int, release: Identity, key: string, command: int, record: RecordId, revision: nat, replayed: bool)

  function RequestOf(b: Body): Request {
    Request(b.command, b.record, b.key, b.inputs)
  }

  function CommandCode(e: CommandError): Code {
    match e
    case Unauthorized(_) => ApiDenied
    case Denied => ApiDenied
    case OutOfScope => ApiDenied
    case UnknownCommand => ApiUnsupported
    case InvalidInput => ApiValidation
    case LimitExceeded => ApiValidation
    case InvalidTransition => ApiValidation
    case GuardFailed => ApiValidation
    case InvalidFacts => ApiValidation
  }

  /** `ApiFailure::storage`: an internal error is the only answer that leaves the outcome open. */
  function StorageCode(e: StoreError): Code {
    match e
    case ScopeMismatch => ApiDenied
    case AuthorityDenied(_) => ApiDenied
    case BindingMismatch => ApiDenied
    case AuthorityChanged => ApiDenied
    case Conflict => ApiConflict
    case IntentConflict => ApiConflict
    case Rejected(reason) => CommandCode(reason)
    case AppNotFound => ApiNotFound
    case _ => ApiInternal
  }

  const MAX_WIRE_BYTES := 1_048_576
  const MAX_RESPONSE_BYTES := 1_048_576

  /** Bytes of an encoded receipt; a release is addressed by 71 of them. */
  function ReceiptBytes(r: ReceiptDto): nat {
    240 + |r.key| + IdBytes(r.app) + IdBytes(r.command) + IdBytes(r.record) + |Decimal(r.revision)|
  }

  /** `receipt_response`, the encoder it ends in, and the response limit after that. */
  function ReceiptResponse(host: Host, receipt: Receipt, encodes: bool): Result<ReceiptDto, Code> {
    if receipt.identity != host.release then Err(ApiConflict)
    else
      var r := ReceiptDto(host.scope.app, receipt.identity, receipt.key, receipt.command, receipt.record, receipt.revision,
                          receipt.replayed);
      if !encodes || ReceiptBytes(r) > MAX_WIRE_BYTES then Err(ApiInternal)
      else if ReceiptBytes(r) > MAX_RESPONSE_BYTES then Err(ApiUnsupported)
      else Ok(r)
  }

  /**
   What the host and the store look up and run into while they serve one request: a refusal of its
   frame (headers, origin, query, content type, body, clock) before anything else, the readings of
   authority, a storage failure, the fate of the commit's acknowledgement, and whether the answer
   passes the wire's own checks.
   */
  datatype Circumstance =
    Circumstance(intake: Option<Code>, gate: Reading, readings: Readings, fault: Option<Stage>, ack: Ack, encodes: bool)

  /** The submission a command body turns into. */
  function Submission(call: Call, b: Body, c: Circumstance): Action {
    Action.Submit(call, c.readings, b.expected, RequestOf(b), c.fault, c.ack)
  }

  ghost function HostCommand(host: Host, db: Db, call: Call, b: Body, c: Circumstance): (Db, Result<ReceiptDto, Code>) {
    if c.intake.Some? then (db, Err(c.intake.value))
    else if Resolve(call, Write, c.gate).Err? || call.scope != host.scope then (db, Err(ApiDenied))
    else if b.release != host.release then (db, Err(ApiConflict))
    else
      var (next, r) := Execute(host.cfg, db, call, c.readings, b.expected, RequestOf(b), c.fault, c.ack);
      match r
      case Err(e) => (next, Err(StorageCode(e)))
      case Ok(receipt) => (next, ReceiptResponse(host, receipt, c.encodes))
  }

  ghost function HostReceipt(host: Host, db: Db, call: Call, key: string, c: Circumstance): Result<ReceiptDto, Code> {
    if c.intake.Some? then Err(c.intake.value)
    else if Resolve(call, Write, c.gate).Err? || call.scope != host.scope then Err(ApiDenied)
    else if !ValidKey(key) then Err(ApiValidation)
    else
      match ReadReceipt(host.cfg, db, call, c.readings, key)
      case Err(e) => Err(StorageCode(e))
      case Ok(None) => Err(ApiNotFound)
      case Ok(Some(receipt)) => ReceiptResponse(host, receipt, c.encodes)
  }

  // ------------------------------------------------------------ what an answer proves

  /** The host serves a bootstrapped application at the release that its store holds. */
  ghost predicate Serving(host: Host, db: Db, books: Books) {
    && Journalled(host.cfg, db, books)
    && host.scope.tenant == host.cfg.tenant
    && host.scope.app in books
    && host.release == Digest(books[host.scope.app].spec)
  }

  /** The log is as it was, or has grown by exactly the request `q`. */
  predicate Extends(log: seq<Entry>, next: seq<Entry>, q: Request, expected: nat) {
    || next == log
    || (|next| == |log| + 1 && next[..|log|] == log && next[|log|].request == q && next[|log|].expected == expected)
  }

  /** One action adds at most its own request to the log of an application, and never changes its definition. */
  lemma LogStep(cfg: Config, db: Db, books: Books, a: Action, app: int)
    requires Journalled(cfg, db, books) && Admissible(a) && app in books
    ensures app in Record(cfg, db, books, a)
    ensures var after := Record(cfg, db, books, a);
            && Journalled(cfg, Act(cfg, db, a), after)
            && after[app].spec == books[app].spec && after[app].boot == books[app].boot
            && (after[app].log == books[app].log
                || (a.Submit? && a.call.scope.app == app && Extends(books[app].log, after[app].log, a.request, a.expected)))
            && (Act(cfg, db, a) == db ==> after == books)
  {
    hide Checked, Journalled, Execute, Bootstrap, Authorised, Canonical;
    match a {
      case Provision(spec, scope, facts, ack) => BootstrapJournalled(cfg, db, books, spec, scope, facts, ack);
      case Submit(call, readings, expected, q, fault, ack) =>
        ExecuteJournalled(cfg, db, books, call, readings, expected, q, fault, ack);
    }
  }

  /** The stored receipt of entry `i` names the command, the record and the release of its request. */
  lemma StoredReceiptNames(cfg: Config, db: Db, books: Books, key: ReceiptKey)
    requires Journalled(cfg, db, books) && key in db.receipts
    ensures key.app in books
    ensures var row := db.receipts[key];
            && row.receipt.key == key.key && row.receipt.identity == Digest(books[key.app].spec)
            && row.receipt.command == row.envelope.request.command && row.receipt.record == row.envelope.request.record
            && row.receipt.revision == row.envelope.expected + 1
            && row.envelope.request.key == key.key
            && exists i :: 0 <= i < |books[key.app].log| && books[key.app].log[i].request == row.envelope.request
                           && books[key.app].log[i].expected == row.envelope.expected
  {
    hide Journalled, Committed, FactsAfter;
    ReceiptRowMeans(cfg, db, books, key);
    var book := books[key.app];
    var i :| 0 <= i < |book.log| && EntryKey(key.app, book.log[i]) == key && Committed(cfg, key.app, book, i)
             && PreparedOf(book.spec, book.log[i]).Some?
             && db.receipts[key] == ReceiptOf(book, i, PreparedOf(book.spec, book.log[i]).value);
    StoredReceiptFits(cfg, key.app, book, i);
  }

  /** A request is in the log. */
  predicate InLog(log: seq<Entry>, q: Request, expected: nat) {
    exists i :: 0 <= i < |log| && log[i].request == q && log[i].expected == expected
  }

  /** A receipt that `execute` answers with names its request and the one release of its application. */
  lemma ExecuteAnswers(cfg: Config, db: Db, books: Books, call: Call, readings: Readings, expected: nat, q: Request,
                       fault: Option<Stage>, ack: Ack)
    requires Journalled(cfg, db, books) && call.scope.app in books
    ensures var (next, r) := Execute(cfg, db, call, readings, expected, q, fault, ack);
            var after := Record(cfg, db, books, Action.Submit(call, readings, expected, q, fault, ack));
            r.Ok? ==>
              && r.value.key == q.key && r.value.command == q.command && r.value.record == q.record
              && r.value.identity == Digest(books[call.scope.app].spec)
              && r.value.revision == expected + 1
              && InLog(after[call.scope.app].log, q, expected)
  {
    hide Journalled, Authorised, Execute, FactsAfter, Canonical, Bootstrap;
    var a := Action.Submit(call, readings, expected, q, fault, ack);
    var (next, r) := Execute(cfg, db, call, readings, expected, q, fault, ack);
    ExecuteJournalled(cfg, db, books, call, readings, expected, q, fault, ack);
    if r.Ok? {
      var app := call.scope.app;
      if r.value.replayed {
        var key := ReceiptKey(app, Authorised(cfg, call, readings.entry).value.actor, q.key);
        StoredReceiptNames(cfg, db, books, key);
        ReplayKeeps(cfg, db, call, readings, expected, q, fault, ack);
      } else {
        var after := Record(cfg, db, books, a);
        var n := |books[app].log|;
        assert after[app].log[n].request == q && after[app].log[n].expected == expected;
        FreshReceipt(cfg, db, books, call, readings, expected, q, fault, ack);
      }
    }
  }

  lemma ReplayKeeps(cfg: Config, db: Db, call: Call, readings: Readings, expected: nat, q: Request, fault: Option<Stage>, ack: Ack)
    ensures var (next, r) := Execute(cfg, db, call, readings, expected, q, fault, ack);
            r.Ok? && r.value.replayed ==> next == db
  {
    hide Authorised, Load, Prepare, Decide, Validate, Revalidated, Written, Collides;
  }

  lemma FreshReceipt(cfg: Config, db: Db, books: Books, call: Call, readings: Readings, expected: nat, q: Request,
                     fault: Option<Stage>, ack: Ack)
    requires Journalled(cfg, db, books) && call.scope.app in books
    ensures var r := Execute(cfg, db, call, readings, expected, q, fault, ack).1;
            r.Ok? && !r.value.replayed ==>
              r.value.command == q.command && r.value.record == q.record && r.value.identity == Digest(books[call.scope.app].spec)
  {
    hide Authorised, Load, Prepare, Decide, Validate, Revalidated, Written, Collides, FactsAfter, Journalled;
    if call.scope.tenant == cfg.tenant {
      LoadJournalled(cfg, db, books, call.scope);
      var book := books[call.scope.app];
      var snapshot := SnapshotAt(book, |book.log|);
      PrepareFoundCommand(snapshot.spec, snapshot.facts, call, readings.prepare, q);
    }
  }

  lemma PrepareFoundCommand(spec: Spec, facts: seq<RawRecord>, call: Call, reading: Reading, q: Request)
    ensures Prepare(spec, facts, call, reading, q).Ok? ==>
              Prepare(spec, facts, call, reading, q).value.command.id == q.command
              && Prepare(spec, facts, call, reading, q).value.request == q
  {
    hide Prepare;
    PrepareUnfolds(spec, facts, call, reading, q);
  }

  /**
   What a command answer proves. A refusal other than an internal error means that nothing was
   written; a receipt means that the request is in the log.
   */
  lemma HostCommandMeans(host: Host, db: Db, books: Books, call: Call, b: Body, c: Circumstance)
    requires Serving(host, db, books) && call.scope == host.scope
    ensures var (next, out) := HostCommand(host, db, call, b, c);
            var after := if next == db then books else Record(host.cfg, db, books, Submission(call, b, c));
            && Serving(host, next, after)
            && Extends(books[host.scope.app].log, after[host.scope.app].log, RequestOf(b), b.expected)
            && (after[host.scope.app].log != books[host.scope.app].log ==> b.release == host.release)
            && (out.Err? && out.error != ApiInternal ==> next == db)
            && (out.Ok? ==>
                  && out.value == ReceiptDto(host.scope.app, host.release, b.key, b.command, b.record, b.expected + 1, out.value.replayed)
                  && InLog(after[host.scope.app].log, RequestOf(b), b.expected))
  {
    hide Journalled, Execute, Resolve, Record, FactsAfter, Bootstrap;
    var a := Submission(call, b, c);
    LogStep(host.cfg, db, books, a, host.scope.app);
    ExecuteJournalled(host.cfg, db, books, call, c.readings, b.expected, RequestOf(b), c.fault, c.ack);
    ExecuteAnswers(host.cfg, db, books, call, c.readings, b.expected, RequestOf(b), c.fault, c.ack);
  }

  /** A recovered receipt proves that a request with its key is in the log. */
  lemma HostReceiptMeans(host: Host, db: Db, books: Books, call: Call, key: string, c: Circumstance)
    requires Serving(host, db, books) && call.scope == host.scope
    ensures var out := HostReceipt(host, db, call, key, c);
            out.Ok? ==>
              && out.value.app == host.scope.app && out.value.release == host.release && out.value.key == key
              && exists i :: 0 <= i < |books[host.scope.app].log| && books[host.scope.app].log[i].request.key == key
                             && books[host.scope.app].log[i].request.command == out.value.command
                             && books[host.scope.app].log[i].request.record == out.value.record
                             && books[host.scope.app].log[i].expected + 1 == out.value.revision
  {
    hide Journalled, ReadReceipt, Resolve, FactsAfter, Authorised;
    RecoveryNeverConflicts(host.cfg, db, books, call, c.readings, key);
    var r := ReadReceipt(host.cfg, db, call, c.readings, key);
    if HostReceipt(host, db, call, key, c).Ok? {
      StoredReceiptNames(host.cfg, db, books,
                         ReceiptKey(call.scope.app, Authorised(host.cfg, call, c.readings.entry).value.actor, key));
    }
  }
}
