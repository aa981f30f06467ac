/**
 The store itself: four tables changed step by step inside one immediate transaction, rolled back
 as a whole when anything fails, and described at every moment by the journal of its commits.
 */
module Store {
  import opened Wrappers
  import opened Sorting
  import opened AppSpec
  import opened Records
  import opened Validation
  import opened Authority
  import opened Commands
  import opened CommandProofs
  import opened Database
  import opened Journal
  import opened JournalRuns
  import opened StoreRuns

  class Store {
    const cfg: Config
    var releases: map<(int, Identity), Spec>
    var applications: map<int, Application>
    var receipts: map<ReceiptKey, ReceiptRow>
    var audit: map<AuditKey, Audit>
    var events: map<EventKey, EventRow>
    ghost var books: Books

    function Tables(): Db
      reads this
    {
      Db(releases, applications, receipts, audit, events)
    }

    ghost predicate Valid()
      reads this
    {
      Journalled(cfg, Tables(), books)
    }

    constructor (cfg: Config)
      ensures Valid() && this.cfg == cfg && Tables() == EMPTY
    {
      this.cfg := cfg;
      releases, applications, receipts, audit, events := map[], map[], map[], map[], map[];
      books := map[];
      new;
      EmptyJournalled(cfg);
    }

    method LoadSnapshot(scope: Scope) returns (r: Result<Snapshot, StoreError>)
      ensures r == Load(Tables(), scope)
    {
      hide Checked, Validate;
      if scope.app !in applications {
        return Err(AppNotFound);
      }
      var app := applications[scope.app];
      if (scope.app, app.identity) !in releases {
        return Err(AppNotFound);
      }
      var spec := releases[(scope.app, app.identity)];
      if app.revision == 0 || !Checked(spec) || app.identity != Digest(spec) {
        return Err(CorruptSnapshot);
      }
      var facts := ValidateRecords(spec, scope, app.facts);
      if facts != Some(app.facts) {
        return Err(CorruptSnapshot);
      }
      r := Ok(Snapshot(spec, app.facts, app.revision, app.identity));
    }

    /** Inserts the event rows of one commit; a taken primary key fails the statement. */
    method InsertEvents(app: int, revision: nat, identity: Identity, rows: seq<Event>) returns (ok: bool)
      modifies this`events
      ensures ok <==> forall i :: 0 <= i < |rows| ==> EventKey(app, revision, i) !in old(events)
      ensures ok ==> events == old(events) + EventRows(app, revision, identity, rows)
    {
      for i := 0 to |rows|
        invariant forall j :: 0 <= j < i ==> EventKey(app, revision, j) !in old(events)
        invariant events == old(events) + EventRows(app, revision, identity, rows[..i])
      {
        assert rows[..i + 1][..i] == rows[..i];
        EventRowsStep(app, revision, identity, rows, i);
        var key := EventKey(app, revision, i);
        EventRowsAt(app, revision, identity, rows[..i]);
        if key in events {
          return false;
        }
        events := events[key := EventRow(rows[i], revision, identity)];
      }
      assert rows[..|rows|] == rows;
      ok := true;
    }

    /** The body of the transaction; what it leaves behind when it fails is for the caller to roll back. */
    method ExecuteTransaction(call: Call, readings: Readings, expected: nat, q: Request, fault: Option<Stage>)
      returns (r: Result<Receipt, StoreError>)
      requires Valid() && call.scope.tenant == cfg.tenant && fault != Some(AtStart)
      modifies this`applications, this`receipts, this`audit, this`events
      ensures r == ExecuteIn(cfg, old(Tables()), call, readings, expected, q, fault).1
      ensures r.Ok? ==> Tables() == ExecuteIn(cfg, old(Tables()), call, readings, expected, q, fault).0
    {
      hide Checked, CheckedRecords, Validate, Decide, Prepare, Authorised, Revalidated, Load, Journalled, ReceiptFitsRequest, FactsAfter,
        EventRows, Bound, Allows;
      ghost var before := Tables();
      var authority := Authorised(cfg, call, readings.entry);
      match authority {
        case Err(e) => return Err(e);
        case Ok(context) =>
          var loaded := LoadSnapshot(call.scope);
          match loaded {
            case Err(e) => return Err(e);
            case Ok(snapshot) =>
              match Prepare(snapshot.spec, snapshot.facts, call, readings.prepare, q) {
                case Err(e) => return Err(Rejected(e));
                case Ok(p) =>
                  if p.context != context {
                    return Err(AuthorityChanged);
                  }
                  var key := ReceiptKey(call.scope.app, context.actor, q.key);
                  if key in receipts {
                    return Replay(cfg, receipts[key], call, readings, expected, q, context, snapshot);
                  }
                  if expected != snapshot.revision {
                    return Err(Conflict);
                  }
                  PrepareFinds(snapshot.spec, snapshot.facts, call, readings.prepare, q);
                  var decision := DecideCommand(snapshot.spec, call.scope, snapshot.facts, p);
                  match decision {
                    case Err(e) => return Err(Rejected(e));
                    case Ok(d) =>
                      var validated := ValidateRecords(snapshot.spec, call.scope, ReplaceRow(snapshot.facts, d.row));
                      match validated {
                        case None => return Err(InvalidFinalFacts);
                        case Some(final) =>
                          r := Commit(call, readings, expected, fault, context, snapshot, p, d, final);
                      }
                  }
              }
          }
      }
    }

    /** The four writes of a commit, each followed by its fault point, and the last look at authority. */
    method Commit(call: Call, readings: Readings, expected: nat, fault: Option<Stage>, context: Context, snapshot: Snapshot,
                  p: Prepared, d: Decision, final: seq<RawRecord>) returns (r: Result<Receipt, StoreError>)
      requires fault != Some(AtStart)
      modifies this`applications, this`receipts, this`audit, this`events
      ensures var app := call.scope.app;
              r == if snapshot.revision + 1 > I64_MAX then Err(RevisionOverflow)
                   else if fault.Some? || Collides(old(Tables()), app, snapshot.revision + 1, |d.events|) then Err(Storage)
                   else match Revalidated(cfg, call, readings.commit, context)
                     case Some(e) => Err(e)
                     case None => Ok(NewReceipt(snapshot, p, expected))
      ensures r.Ok? ==> Tables() == Written(old(Tables()), call, snapshot, expected, p, d, final)
    {
      hide Revalidated, EventRows;
      var app := call.scope.app;
      var revision := snapshot.revision + 1;
      if revision > I64_MAX {
        return Err(RevisionOverflow);
      }
      applications := applications[app := Application(snapshot.identity, revision, final)];
      if fault == Some(AtFacts) {
        return Err(Storage);
      }
      if AuditKey(app, revision) in audit {
        return Err(Storage);
      }
      audit := audit[AuditKey(app, revision) := NewAudit(snapshot, call, p, expected)];
      if fault == Some(AtAudit) {
        return Err(Storage);
      }
      var inserted := InsertEvents(app, revision, snapshot.identity, d.events);
      if !inserted || fault == Some(AtEvents) {
        return Err(Storage);
      }
      var receipt := NewReceipt(snapshot, p, expected);
      receipts := receipts[ReceiptKey(app, p.context.actor, p.request.key) :=
                             ReceiptRow(IntentOf(snapshot, expected, p.request), Envelope(expected, p.request), receipt)];
      if fault == Some(AtReceipt) {
        return Err(Storage);
      }
      AllStages(fault);
      assert !Collides(old(Tables()), app, revision, |d.events|);
      match Revalidated(cfg, call, readings.commit, context) {
        case Some(e) => return Err(e);
        case None => return Ok(receipt);
      }
    }

    /** `execute_at`: commit, or put every table back as it was. */
    method CommitOrRollBack(call: Call, readings: Readings, expected: nat, q: Request, fault: Option<Stage>, ack: Ack)
      returns (r: Result<Receipt, StoreError>)
      requires Valid()
      modifies this`applications, this`receipts, this`audit, this`events
      ensures (Tables(), r) == Database.Execute(cfg, old(Tables()), call, readings, expected, q, fault, ack)
    {
      hide ExecuteIn, Journalled;
      if call.scope.tenant != cfg.tenant {
        return Err(ScopeMismatch);
      }
      if fault == Some(AtStart) {
        return Err(Storage);
      }
      var savedApplications, savedReceipts, savedAudit, savedEvents := applications, receipts, audit, events;
      r := ExecuteTransaction(call, readings, expected, q, fault);
      if r.Err? || ack == Unacked(false) {
        applications, receipts, audit, events := savedApplications, savedReceipts, savedAudit, savedEvents;
      }
      if r.Ok? && ack.Unacked? {
        r := Err(Storage);
      }
    }

    /** `execute`: the tables and the answer of the transaction, and the journal that still describes them. */
    method Execute(call: Call, readings: Readings, expected: nat, q: Request, fault: Option<Stage>, ack: Ack)
      returns (r: Result<Receipt, StoreError>)
      requires Valid()
      modifies this
      ensures Valid()
      ensures (Tables(), r) == Database.Execute(cfg, old(Tables()), call, readings, expected, q, fault, ack)
      ensures books == Record(cfg, old(Tables()), old(books), Action.Submit(call, readings, expected, q, fault, ack))
    {
      hide Journalled, Record, Database.Execute;
      ghost var db := Tables();
      RecordJournalled(cfg, db, books, Action.Submit(call, readings, expected, q, fault, ack));
      r := CommitOrRollBack(call, readings, expected, q, fault, ack);
      books := Record(cfg, db, books, Action.Submit(call, readings, expected, q, fault, ack));
    }

    /** `receipt`: reads only. */
    method ReadReceipt(call: Call, readings: Readings, key: string) returns (r: Result<Option<Receipt>, StoreError>)
      ensures r == Database.ReadReceipt(cfg, Tables(), call, readings, key)
    {
      hide Load, Prepare, Authorised, Recover;
      if call.scope.tenant != cfg.tenant {
        return Err(ScopeMismatch);
      }
      match Authorised(cfg, call, readings.entry) {
        case Err(e) => return Err(e);
        case Ok(context) =>
          if !ValidKey(key) {
            return Err(InvalidReceiptKey);
          }
          var rk := ReceiptKey(call.scope.app, context.actor, key);
          if rk !in receipts {
            return Ok(None);
          }
          var row := receipts[rk];
          if row.envelope.request.key != key {
            return Err(CorruptSnapshot);
          }
          var loaded := LoadSnapshot(call.scope);
          match loaded {
            case Err(e) => return Err(e);
            case Ok(snapshot) => r := Recover(cfg, row, call, readings, context, snapshot);
          }
      }
    }

    /** Inserts a release and its application, unless the application is there already with the same content. */
    method InsertApplication(spec: Spec, checked: seq<RawRecord>) returns (failure: Option<StoreError>)
      modifies this`releases, this`applications
      ensures failure == if spec.app in old(applications)
                         then if old(applications)[spec.app].identity != Digest(spec) || old(applications)[spec.app].facts != checked
                           then Some(AppAlreadyExists) else None
                         else if (spec.app, Digest(spec)) in old(releases) then Some(Storage) else None
      ensures Tables() == if failure.Some? || spec.app in old(applications) then old(Tables())
                          else old(Tables()).(releases := old(releases)[(spec.app, Digest(spec)) := spec],
                                              applications := old(applications)[spec.app := Application(Digest(spec), 1, checked)])
    {
      if spec.app in applications {
        var app := applications[spec.app];
        if app.identity != Digest(spec) || app.facts != checked {
          return Some(AppAlreadyExists);
        }
        return None;
      }
      if (spec.app, Digest(spec)) in releases {
        return Some(Storage);
      }
      releases := releases[(spec.app, Digest(spec)) := spec];
      applications := applications[spec.app := Application(Digest(spec), 1, checked)];
      failure := None;
    }

    method ProvisionTransaction(spec: Spec, scope: Scope, facts: seq<RawRecord>, ack: Ack) returns (r: Result<Snapshot, StoreError>)
      modifies this`releases, this`applications
      ensures (Tables(), r) == Database.Bootstrap(cfg, old(Tables()), spec, scope, facts, ack)
    {
      hide Checked, Load, Validate, Canonical;
      if scope.tenant != cfg.tenant {
        return Err(ScopeMismatch);
      }
      var validated := ValidateRecords(spec, scope, facts);
      match validated {
        case None => return Err(InvalidFinalFacts);
        case Some(checked) =>
          var savedReleases, savedApplications := releases, applications;
          var failure := InsertApplication(spec, checked);
          match failure {
            case Some(e) => return Err(e);
            case None =>
              r := LoadSnapshot(scope);
              if r.Err? || ack == Unacked(false) {
                releases, applications := savedReleases, savedApplications;
              }
              if r.Ok? && ack.Unacked? {
                r := Err(Storage);
              }
          }
      }
    }

    /** `bootstrap`: adds an application, or touches nothing. */
    method Bootstrap(spec: Spec, scope: Scope, facts: seq<RawRecord>, ack: Ack) returns (r: Result<Snapshot, StoreError>)
      requires Valid() && Checked(spec)
      modifies this`releases, this`applications, this`books
      ensures Valid()
      ensures (Tables(), r) == Database.Bootstrap(cfg, old(Tables()), spec, scope, facts, ack)
      ensures books == Record(cfg, old(Tables()), old(books), Provision(spec, scope, facts, ack))
    {
      hide Checked, Journalled, Record, Database.Bootstrap;
      ghost var db := Tables();
      RecordJournalled(cfg, db, books, Provision(spec, scope, facts, ack));
      r := ProvisionTransaction(spec, scope, facts, ack);
      books := Record(cfg, db, books, Provision(spec, scope, facts, ack));
    }
  }

  lemma EventRowsStep(app: int, revision: nat, identity: Identity, rows: seq<Event>, i: nat)
    requires i < |rows|
    ensures EventRows(app, revision, identity, rows[..i + 1])
            == EventRows(app, revision, identity, rows[..i])[EventKey(app, revision, i) := EventRow(rows[i], revision, identity)]
  {
    EventRowsAt(app, revision, identity, rows[..i + 1]);
    EventRowsAt(app, revision, identity, rows[..i]);
    assert EventRows(app, revision, identity, rows[..i + 1]).Keys
           == EventRows(app, revision, identity, rows[..i]).Keys + {EventKey(app, revision, i)};
  }

  lemma AllStages(fault: Option<Stage>)
    ensures fault == None || fault == Some(AtStart) || fault == Some(AtFacts) || fault == Some(AtAudit) || fault == Some(AtEvents)
            || fault == Some(AtReceipt)
  {
    match fault {
      case None =>
      case Some(stage) => assert stage.AtStart? || stage.AtFacts? || stage.AtAudit? || stage.AtEvents? || stage.AtReceipt?;
    }
  }

  lemma PrepareFinds(spec: Spec, facts: seq<RawRecord>, call: Call, reading: Reading, q: Request)
    ensures Prepare(spec, facts, call, reading, q).Ok? ==>
              var p := Prepare(spec, facts, call, reading, q).value;
              p.request == q && FindRow(facts, Key(p.machine.table, p.request.record)).Some?
  {
    PrepareUnfolds(spec, facts, call, reading, q);
  }

  /** The journals of the run definition describe the tables after any admissible action. */
  lemma RecordJournalled(cfg: Config, db: Db, books: Books, a: Action)
    requires Journalled(cfg, db, books) && Admissible(a)
    ensures Journalled(cfg, Act(cfg, db, a), Record(cfg, db, books, a))
    ensures Act(cfg, db, a) == db ==> Record(cfg, db, books, a) == books
  {
    hide Checked, Journalled, Execute, Bootstrap, Authorised, Canonical;
    match a {
      case Provision(spec, scope, facts, ack) => BootstrapJournalled(cfg, db, books, spec, scope, facts, ack);
      case Submit(call, readings, expected, q, fault, ack) =>
        ExecuteJournalled(cfg, db, books, call, readings, expected, q, fault, ack);
    }
  }
}
