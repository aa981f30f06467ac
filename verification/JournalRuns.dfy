/**
 Runs of the store: bootstraps, commands, retries, recoveries, rejected requests, storage failures
 at any stage and commits whose acknowledgement is lost. Every state they reach is journalled, and a
 request that committed is answered with its own receipt for ever after.
 */
module JournalRuns {
  import opened Wrappers
  import opened Sorting
  import opened AppSpec
  import opened Records
  import opened Authority
  import opened Commands
  import opened CommandProofs
  import opened Database
  import opened Journal
  import opened Histories

  // ------------------------------------------------------------ one execution

  /** Request `q` committed: one entry more in one book, and nothing else. */
  ghost predicate Appends(cfg: Config, db: Db, next: Db, books: Books, call: Call, expected: nat, q: Request, e: Entry) {
    && call.scope.tenant == cfg.tenant && call.scope.app in books
    && e.now == call.now && e.expected == expected && e.request == q && e.context.scope == call.scope
    && EntryKey(call.scope.app, e) !in db.receipts
    && expected == |books[call.scope.app].log| + 1
    && Journalled(cfg, next, books[call.scope.app := Grown(books[call.scope.app], e)])
  }

  /** The stored receipt that a replay answers with. */
  ghost predicate Replays(db: Db, call: Call, context: Context, expected: nat, q: Request, receipt: Receipt) {
    var key := ReceiptKey(call.scope.app, context.actor, q.key);
    && key in db.receipts
    && db.receipts[key].envelope == Envelope(expected, q)
    && receipt == db.receipts[key].receipt.(replayed := true)
  }

  /** What a stored receipt row says, whoever asks. */
  lemma ReceiptRowMeans(cfg: Config, db: Db, books: Books, key: ReceiptKey)
    requires Journalled(cfg, db, books) && key in db.receipts
    ensures key.app in books
    ensures exists i :: 0 <= i < |books[key.app].log| && EntryKey(key.app, books[key.app].log[i]) == key
                        && Committed(cfg, key.app, books[key.app], i)
                        && PreparedOf(books[key.app].spec, books[key.app].log[i]).Some?
                        && db.receipts[key] == ReceiptOf(books[key.app], i, PreparedOf(books[key.app].spec, books[key.app].log[i]).value)
  {
    hide Checked, CheckedRecords, Committed, Decided, Decide, FactsAfter, ReceiptOf, EventsAt, AuditOf, EventRows;
    var book := books[key.app];
    var i :| 0 <= i < |book.log| && EntryKey(key.app, book.log[i]) == key;
    assert BookOk(cfg, db, key.app, book);
    assert Posted(cfg, db, key.app, book, i);
    CommittedPrepared(cfg, key.app, book, i);
  }

  lemma CommittedPrepared(cfg: Config, app: int, book: Book, i: nat)
    requires i < |book.log| && Committed(cfg, app, book, i)
    ensures book.log[i].expected == i + 1 && book.log[i].context.binding == cfg.binding
    ensures book.log[i].context.scope == Scope(cfg.tenant, app)
    ensures PreparedOf(book.spec, book.log[i]).Some? && Bound(book.spec, PreparedOf(book.spec, book.log[i]).value)
    ensures PreparedOf(book.spec, book.log[i]).value.request == book.log[i].request
    ensures PreparedOf(book.spec, book.log[i]).value.context == book.log[i].context
  {
    hide Decide, FactsAfter, Allows, Bound;
    PreparedRequest(book.spec, book.log[i]);
  }

  /** A stored receipt always answers the request stored beside it. */
  lemma StoredReceiptFits(cfg: Config, app: int, book: Book, i: nat)
    requires i < |book.log| && Committed(cfg, app, book, i)
    ensures var e := book.log[i];
            var row := ReceiptOf(book, i, PreparedOf(book.spec, e).value);
            && row.intent == IntentOf(SnapshotAt(book, |book.log|), e.expected, e.request)
            && row.envelope == Envelope(e.expected, e.request)
            && ReceiptFitsRequest(SnapshotAt(book, |book.log|), e.request, e.expected, row.receipt)
  {
    hide FactsAfter, Committed, InputsAccepted, RequestFits, IntentFits, ValidKey, CommandChecked;
    CommittedPrepared(cfg, app, book, i);
    var p := PreparedOf(book.spec, book.log[i]).value;
    assert p.command in book.spec.commands;
    var j :| 0 <= j < |book.spec.commands| && book.spec.commands[j] == p.command;
  }

  /** Everything an execution can do to a journalled database, and everything it can answer. */
  lemma ExecuteOnJournalled(cfg: Config, db: Db, books: Books, call: Call, readings: Readings, expected: nat, q: Request,
                            fault: Option<Stage>, context: Context)
    requires Journalled(cfg, db, books) && call.scope.tenant == cfg.tenant && call.scope.app in books
    requires Authorised(cfg, call, readings.entry) == Ok(context)
    ensures var snapshot := SnapshotAt(books[call.scope.app], |books[call.scope.app].log|);
            var (next, r) := ExecuteOn(cfg, db, call, readings, expected, q, fault, context, snapshot);
            && r != Err(CorruptSnapshot) && r != Err(InvalidFinalFacts)
            && (r.Err? ==> next == db)
            && (r.Ok? && r.value.replayed ==> next == db && Replays(db, call, context, expected, q, r.value))
            && (r.Ok? && !r.value.replayed ==>
                  && Appends(cfg, db, next, books, call, expected, q, Entry(context, call.now, expected, q))
                  && r.value.expected == expected && r.value.key == q.key && r.value.revision == expected + 1)
  {
    hide Checked, CheckedRecords, Decide, Validate, Authorised, Revalidated, Bound, Allows, Journalled, Committed, Prepare,
      FactsAfter, Collides, Written, NewReceipt, Commits, ReceiptFitsRequest, ReceiptOf;
    var app := call.scope.app;
    var book := books[app];
    var snapshot := SnapshotAt(book, |book.log|);
    BookHead(cfg, db, books, app);
    PreparedMeans(book.spec, snapshot.facts, call, readings.prepare, q);
    match Prepare(snapshot.spec, snapshot.facts, call, readings.prepare, q) {
      case Err(_) =>
      case Ok(p) =>
        var key := ReceiptKey(app, context.actor, q.key);
        if p.context == context && key in db.receipts {
          ReplayJournalled(cfg, db, books, call, readings, expected, q, context);
        } else if p.context == context && expected == snapshot.revision && Decide(snapshot.spec, call.scope, snapshot.facts, p).Ok?
                  && snapshot.revision + 1 <= I64_MAX {
          var d := Decide(snapshot.spec, call.scope, snapshot.facts, p).value;
          AuthorisedMeans(cfg, call, readings.entry);
          CommitsFrom(cfg, db, books, call, expected, p, d);
          CommitFacts(cfg, db, books, call, expected, p, d);
          CommitJournalled(cfg, db, books, call, expected, p, d);
          NewReceiptMeans(snapshot, p, expected);
          RevalidatedMeans(cfg, call, readings.commit, context);
        } else if Decide(snapshot.spec, call.scope, snapshot.facts, p).Ok? && expected == snapshot.revision && p.context == context {
          SecondValidation(cfg, db, books, call, p);
        }
    }
  }

  lemma NewReceiptMeans(snapshot: Snapshot, p: Prepared, expected: nat)
    ensures var r := NewReceipt(snapshot, p, expected);
            !r.replayed && r.expected == expected && r.key == p.request.key && r.revision == snapshot.revision + 1
  {
  }

  lemma BookHead(cfg: Config, db: Db, books: Books, app: int)
    requires Journalled(cfg, db, books) && app in books
    ensures BookOk(cfg, db, app, books[app]) && Checked(books[app].spec) && books[app].spec.app == app
    ensures CheckedRecords(books[app].spec, Scope(cfg.tenant, app), FactsAfter(books[app], |books[app].log|))
    ensures |books[app].log| + 1 <= I64_MAX
    ensures Lawful(cfg, app, books[app])
  {
    hide Checked, CheckedRecords, FactsAfter, Posted, NothingElse;
    BookLawful(cfg, db, app, books[app]);
  }

  lemma AuthorisedMeans(cfg: Config, call: Call, reading: Reading)
    ensures Authorised(cfg, call, reading).Ok? ==>
              var c := Authorised(cfg, call, reading).value;
              c.binding == cfg.binding && c.scope == call.scope && Resolve(call, Write, reading) == Ok(c)
  {
    ResolvedMeans(call, Write, reading);
  }

  lemma CommitsFrom(cfg: Config, db: Db, books: Books, call: Call, expected: nat, p: Prepared, d: Decision)
    requires Journalled(cfg, db, books) && call.scope.tenant == cfg.tenant && call.scope.app in books
    requires var book := books[call.scope.app];
             && expected == |book.log| + 1 && |book.log| + 2 <= I64_MAX
             && p.context.binding == cfg.binding && p.context.scope == call.scope && Bound(book.spec, p)
             && FindRow(FactsAfter(book, |book.log|), Key(p.machine.table, p.request.record)).Some?
             && Allows(p.policy, p.context, FindRow(FactsAfter(book, |book.log|), Key(p.machine.table, p.request.record)).value)
             && Decide(book.spec, call.scope, FactsAfter(book, |book.log|), p) == Ok(d)
    requires ReceiptKey(call.scope.app, p.context.actor, p.request.key) !in db.receipts
    ensures Commits(cfg, db, books, call, expected, p, d)
  {
    hide Journalled, Bound, FactsAfter, Allows, Decide;
  }

  lemma RevalidatedMeans(cfg: Config, call: Call, reading: Reading, previous: Context)
    ensures Revalidated(cfg, call, reading, previous).None? <==> Authorised(cfg, call, reading) == Ok(previous)
    ensures Revalidated(cfg, call, reading, previous).Some? ==>
              var e := Revalidated(cfg, call, reading, previous).value;
              e.AuthorityDenied? || e.BindingMismatch? || e.AuthorityChanged?
  {
  }

  /** The final facts are validated twice; the second time cannot fail. */
  lemma SecondValidation(cfg: Config, db: Db, books: Books, call: Call, p: Prepared)
    requires Journalled(cfg, db, books) && call.scope.tenant == cfg.tenant && call.scope.app in books
    requires var book := books[call.scope.app];
             Bound(book.spec, p) && Decide(book.spec, call.scope, FactsAfter(book, |book.log|), p).Ok?
    ensures var book := books[call.scope.app];
            var d := Decide(book.spec, call.scope, FactsAfter(book, |book.log|), p).value;
            Validate(book.spec, call.scope, ReplaceRow(FactsAfter(book, |book.log|), d.row)) == Some(d.facts)
  {
    hide Checked, CheckedRecords, Decide, Validate, Bound, Allows, FactsAfter, Advances, GuardsHold, Journalled;
    BookHead(cfg, db, books, call.scope.app);
    assert call.scope == Scope(cfg.tenant, call.scope.app);
    DecisionMeans(books[call.scope.app].spec, call.scope, FactsAfter(books[call.scope.app], |books[call.scope.app].log|), p);
  }

  /** A replay meets a stored receipt that fits, or an intent that differs from the stored one. */
  lemma ReplayJournalled(cfg: Config, db: Db, books: Books, call: Call, readings: Readings, expected: nat, q: Request, context: Context)
    requires Journalled(cfg, db, books) && call.scope.tenant == cfg.tenant
    requires ReceiptKey(call.scope.app, context.actor, q.key) in db.receipts
    ensures call.scope.app in books
    ensures var snapshot := SnapshotAt(books[call.scope.app], |books[call.scope.app].log|);
            var row := db.receipts[ReceiptKey(call.scope.app, context.actor, q.key)];
            var r := Replay(cfg, row, call, readings, expected, q, context, snapshot);
            && r != Err(CorruptSnapshot) && r != Err(InvalidFinalFacts)
            && (row.envelope == Envelope(expected, q) <==> row.intent == IntentOf(snapshot, expected, q))
            && (r == Err(IntentConflict) <==> row.envelope != Envelope(expected, q))
            && (r.Ok? ==> r.value.replayed && Replays(db, call, context, expected, q, r.value))
            && (row.envelope == Envelope(expected, q) && Revalidated(cfg, call, readings.commit, context).None? ==>
                  r == Ok(row.receipt.(replayed := true)))
  {
    hide Checked, CheckedRecords, Journalled, Committed, FactsAfter, ReceiptOf, ReceiptFitsRequest, Resolve;
    var app := call.scope.app;
    var key := ReceiptKey(app, context.actor, q.key);
    ReceiptRowMeans(cfg, db, books, key);
    var book := books[app];
    var i :| 0 <= i < |book.log| && EntryKey(app, book.log[i]) == key && Committed(cfg, app, book, i)
             && PreparedOf(book.spec, book.log[i]).Some?
             && db.receipts[key] == ReceiptOf(book, i, PreparedOf(book.spec, book.log[i]).value);
    StoredReceiptFits(cfg, app, book, i);
    assert db.receipts[key].envelope.request.key == q.key;
  }

  /** Executing on a journalled database: a rejection or a replay changes nothing, a commit appends one entry. */
  lemma ExecuteJournalled(cfg: Config, db: Db, books: Books, call: Call, readings: Readings, expected: nat, q: Request,
                          fault: Option<Stage>, ack: Ack)
    requires Journalled(cfg, db, books)
    ensures var (next, r) := Execute(cfg, db, call, readings, expected, q, fault, ack);
            && r != Err(CorruptSnapshot)
            && (next != db ==>
                  && Authorised(cfg, call, readings.entry).Ok?
                  && Appends(cfg, db, next, books, call, expected, q,
                             Entry(Authorised(cfg, call, readings.entry).value, call.now, expected, q))
                  && (r == Err(Storage) || (r.Ok? && !r.value.replayed)))
            && (r.Ok? ==> r.value.expected == expected && r.value.key == q.key && r.value.revision == expected + 1)
            && (r.Ok? && !r.value.replayed ==> next != db)
            && (r.Ok? && r.value.replayed ==>
                  Authorised(cfg, call, readings.entry).Ok?
                  && Replays(db, call, Authorised(cfg, call, readings.entry).value, expected, q, r.value))
  {
    hide Journalled, ExecuteOn, Authorised, Load, Appends, FactsAfter, Replays;
    if call.scope.tenant == cfg.tenant {
      LoadJournalled(cfg, db, books, call.scope);
      AuthorisedErrors(cfg, call, readings.entry);
      if Authorised(cfg, call, readings.entry).Ok? && call.scope.app in books {
        var context := Authorised(cfg, call, readings.entry).value;
        ExecuteOnJournalled(cfg, db, books, call, readings, expected, q, fault, context);
        ReplayedFields(cfg, db, books, call, context, expected, q);
        AppendsChanges(cfg, db, books, call, readings, expected, q, fault, context);
      }
    }
  }

  lemma AuthorisedErrors(cfg: Config, call: Call, reading: Reading)
    ensures Authorised(cfg, call, reading).Err? ==>
              Authorised(cfg, call, reading).error.AuthorityDenied? || Authorised(cfg, call, reading).error.BindingMismatch?
  {
  }

  lemma ReplayedFields(cfg: Config, db: Db, books: Books, call: Call, context: Context, expected: nat, q: Request)
    requires Journalled(cfg, db, books)
    ensures forall r :: Replays(db, call, context, expected, q, r) ==>
              r.expected == expected && r.key == q.key && r.revision == expected + 1
  {
    hide Journalled, Committed, FactsAfter;
    var key := ReceiptKey(call.scope.app, context.actor, q.key);
    if key in db.receipts {
      ReceiptRowMeans(cfg, db, books, key);
      var book := books[key.app];
      var i :| 0 <= i < |book.log| && EntryKey(key.app, book.log[i]) == key && Committed(cfg, key.app, book, i)
               && PreparedOf(book.spec, book.log[i]).Some?
               && db.receipts[key] == ReceiptOf(book, i, PreparedOf(book.spec, book.log[i]).value);
      StoredReceiptFits(cfg, key.app, book, i);
    }
  }

  lemma AppendsChanges(cfg: Config, db: Db, books: Books, call: Call, readings: Readings, expected: nat, q: Request,
                       fault: Option<Stage>, context: Context)
    requires Journalled(cfg, db, books) && call.scope.app in books
    ensures forall next :: Appends(cfg, db, next, books, call, expected, q, Entry(context, call.now, expected, q)) ==> next != db
  {
    hide Checked, CheckedRecords, Posted, FactsAfter;
    var app := call.scope.app;
    assert BookOk(cfg, db, app, books[app]);
    forall next | Appends(cfg, db, next, books, call, expected, q, Entry(context, call.now, expected, q))
      ensures next != db
    {
      var after := books[app := Grown(books[app], Entry(context, call.now, expected, q))];
      assert BookOk(cfg, next, app, after[app]);
    }
  }

  // ------------------------------------------------------------ exactly-once retry

  lemma PrepareAgain(spec: Spec, facts: seq<RawRecord>, call: Call, reading: Reading, p: Prepared)
    requires Bound(spec, p) && call.scope.app == spec.app && Resolve(call, Write, reading) == Ok(p.context)
    requires FindRow(facts, Key(p.machine.table, p.request.record)).Some?
    requires Allows(p.policy, p.context, FindRow(facts, Key(p.machine.table, p.request.record)).value)
    ensures Prepare(spec, facts, call, reading, p.request) == Ok(p)
  {
    hide Resolve, Allows, ValidKey, RequestFits, IntentFits, InputsAccepted, CommandChecked, FindCommand, FindMachine, FindPolicy, FindRow;
  }

  lemma SameOwnerAllows(spec: Spec, policy: Policy, context: Context, was: RawRecord, now: RawRecord)
    requires policy in spec.policies && SameIdentity(spec, was, now) && Allows(policy, context, was)
    ensures Allows(policy, context, now)
  {
    assert Frozen(spec, policy.table, policy.ownerField);
  }

  /** The authority that a request committed under still reaches its record, at every later revision. */
  lemma CommittedStillAllowed(cfg: Config, app: int, book: Book, i: nat)
    requires Lawful(cfg, app, book) && i < |book.log|
    requires PreparedOf(book.spec, book.log[i]).Some?
    ensures var p := PreparedOf(book.spec, book.log[i]).value;
            var key := Key(p.machine.table, p.request.record);
            var row := FindRow(FactsAfter(book, |book.log|), key);
            row.Some? && Allows(p.policy, book.log[i].context, row.value)
  {
    hide Checked, CheckedRecords, Decide, FactsAfter, SameIdentity, Allows, CommandChecked, InputsAccepted, RequestFits, IntentFits;
    assert Committed(cfg, app, book, i);
    var e := book.log[i];
    var p := PreparedOf(book.spec, e).value;
    PreparedRequest(book.spec, e);
    var key := Key(p.machine.table, e.request.record);
    FrozenFieldsConstant(cfg, app, book, i, |book.log|, key);
    SameOwnerAllows(book.spec, p.policy, e.context, RowAt(book, i, key).value, RowAt(book, |book.log|, key).value);
  }

  /** The receipt that commit `i` is answered with ever after. */
  function Remembered(book: Book, i: nat): Receipt
    requires i < |book.log| && PreparedOf(book.spec, book.log[i]).Some?
  {
    ReceiptOf(book, i, PreparedOf(book.spec, book.log[i]).value).receipt.(replayed := true)
  }

  ghost predicate SameAuthority(cfg: Config, app: int, call: Call, readings: Readings, context: Context) {
    && call.scope == Scope(cfg.tenant, app)
    && Resolve(call, Write, readings.entry) == Ok(context)
    && Resolve(call, Write, readings.prepare) == Ok(context)
    && Resolve(call, Write, readings.commit) == Ok(context)
  }

  lemma PreparedAgain(cfg: Config, db: Db, books: Books, app: int, i: nat, call: Call, readings: Readings)
    requires Journalled(cfg, db, books) && app in books && i < |books[app].log|
    requires SameAuthority(cfg, app, call, readings, books[app].log[i].context)
    ensures PreparedOf(books[app].spec, books[app].log[i]).Some?
    ensures Committed(cfg, app, books[app], i)
    ensures Prepare(books[app].spec, FactsAfter(books[app], |books[app].log|), call, readings.prepare, books[app].log[i].request)
            == Ok(PreparedOf(books[app].spec, books[app].log[i]).value)
  {
    hide Checked, CheckedRecords, Resolve, Prepare, FactsAfter, Committed, Bound, Allows, NothingElse;
    var book := books[app];
    BookHead(cfg, db, books, app);
    assert Committed(cfg, app, book, i);
    CommittedPrepared(cfg, app, book, i);
    CommittedStillAllowed(cfg, app, book, i);
    PrepareAgain(book.spec, FactsAfter(book, |book.log|), call, readings.prepare, PreparedOf(book.spec, book.log[i]).value);
  }

  lemma StoredRow(cfg: Config, db: Db, books: Books, app: int, i: nat)
    requires Journalled(cfg, db, books) && app in books && i < |books[app].log|
    ensures Committed(cfg, app, books[app], i) && PreparedOf(books[app].spec, books[app].log[i]).Some?
    ensures EntryKey(app, books[app].log[i]) in db.receipts
    ensures db.receipts[EntryKey(app, books[app].log[i])]
            == ReceiptOf(books[app], i, PreparedOf(books[app].spec, books[app].log[i]).value)
  {
    hide HeadOk, NothingElse, Committed, FactsAfter, Decide;
    assert BookOk(cfg, db, app, books[app]);
    assert Posted(cfg, db, app, books[app], i);
    CommittedPrepared(cfg, app, books[app], i);
  }

  /**
   Exactly once: a committed request that is executed again under the authority it committed under
   is answered with its own receipt, changes nothing, and is found by its key.
   */
  lemma RetryReplays(cfg: Config, db: Db, books: Books, app: int, i: nat, call: Call, readings: Readings, fault: Option<Stage>, ack: Ack)
    requires Journalled(cfg, db, books) && app in books && i < |books[app].log|
    requires SameAuthority(cfg, app, call, readings, books[app].log[i].context)
    requires fault != Some(AtStart)
    ensures PreparedOf(books[app].spec, books[app].log[i]).Some?
    ensures var e := books[app].log[i];
            && Execute(cfg, db, call, readings, e.expected, e.request, fault, ack)
               == (db, if ack.Acked? then Ok(Remembered(books[app], i)) else Err(Storage))
            && ReadReceipt(cfg, db, call, readings, e.request.key) == Ok(Some(Remembered(books[app], i)))
  {
    hide Journalled, Resolve, Load, FactsAfter, Committed, Prepare, ReceiptOf, Bound, ReceiptFitsRequest, ValidKey;
    var book := books[app];
    var e := book.log[i];
    PreparedAgain(cfg, db, books, app, i, call, readings);
    CommittedPrepared(cfg, app, book, i);
    StoredRow(cfg, db, books, app, i);
    StoredReceiptFits(cfg, app, book, i);
    LoadJournalled(cfg, db, books, call.scope);
    BoundKey(book.spec, PreparedOf(book.spec, e).value);
    assert ReceiptKey(app, e.context.actor, e.request.key) == EntryKey(app, e);
  }

  lemma BoundKey(spec: Spec, p: Prepared)
    requires Bound(spec, p)
    ensures ValidKey(p.request.key)
  {
    hide ValidKey, CommandChecked, InputsAccepted;
  }

  /** Recovery never reports a conflict or a corruption, whoever asks and under whatever authority. */
  lemma RecoveryNeverConflicts(cfg: Config, db: Db, books: Books, call: Call, readings: Readings, key: string)
    requires Journalled(cfg, db, books)
    ensures var r := ReadReceipt(cfg, db, call, readings, key);
            && r != Err(IntentConflict) && r != Err(CorruptSnapshot)
            && (r.Ok? ==> Authorised(cfg, call, readings.entry).Ok?
                          && var rk := ReceiptKey(call.scope.app, Authorised(cfg, call, readings.entry).value.actor, key);
                             if rk in db.receipts then r.value == Some(db.receipts[rk].receipt.(replayed := true)) else r.value == None)
  {
    hide Journalled, Load, FactsAfter, Committed, Prepare, ReceiptOf, ReceiptFitsRequest, ValidKey, Authorised, Revalidated;
    AuthorisedErrors(cfg, call, readings.entry);
    if Authorised(cfg, call, readings.entry).Ok? {
      var context := Authorised(cfg, call, readings.entry).value;
      RevalidatedMeans(cfg, call, readings.commit, context);
      var rk := ReceiptKey(call.scope.app, context.actor, key);
      if rk in db.receipts && call.scope.tenant == cfg.tenant {
        ReceiptRowMeans(cfg, db, books, rk);
        var book := books[rk.app];
        var i :| 0 <= i < |book.log| && EntryKey(rk.app, book.log[i]) == rk && Committed(cfg, rk.app, book, i)
                 && PreparedOf(book.spec, book.log[i]).Some?
                 && db.receipts[rk] == ReceiptOf(book, i, PreparedOf(book.spec, book.log[i]).value);
        StoredReceiptFits(cfg, rk.app, book, i);
        LoadJournalled(cfg, db, books, call.scope);
      }
    }
  }

  /** Every reading is live and shows the same caller as the first, at this store. */
  ghost predicate LiveThroughout(cfg: Config, call: Call, readings: Readings) {
    && Live(call, Write, readings.entry) && Live(call, Write, readings.prepare) && Live(call, Write, readings.commit)
    && Resolve(call, Write, readings.entry) == Resolve(call, Write, readings.prepare) == Resolve(call, Write, readings.commit)
    && Authorised(cfg, call, readings.entry).Ok?
  }

  lemma LiveFrom(cfg: Config, call: Call, readings: Readings, context: Context)
    requires Authorised(cfg, call, readings.entry) == Ok(context) == Authorised(cfg, call, readings.commit)
    requires Resolve(call, Write, readings.prepare) == Ok(context)
    ensures LiveThroughout(cfg, call, readings)
  {
    AuthorisedMeans(cfg, call, readings.entry);
    AuthorisedMeans(cfg, call, readings.commit);
    ResolvedMeans(call, Write, readings.entry);
    ResolvedMeans(call, Write, readings.prepare);
    ResolvedMeans(call, Write, readings.commit);
  }

  /**
   No authority, no effect and no receipt: a session that has expired or been revoked, a membership
   that changed, or a grant withdrawn at any of the three readings, the last one included, leaves
   every table as it was and yields no receipt, fresh, replayed or recovered.
   */
  lemma NothingWithoutLiveAuthority(cfg: Config, db: Db, call: Call, readings: Readings, expected: nat, q: Request,
                                    fault: Option<Stage>, ack: Ack, key: string)
    requires !LiveThroughout(cfg, call, readings)
    ensures var (next, r) := Execute(cfg, db, call, readings, expected, q, fault, ack);
            next == db && r.Err?
    ensures var r := ReadReceipt(cfg, db, call, readings, key);
            r.Ok? ==> r.value.None?
  {
    hide LiveThroughout, Authorised, Load, Prepare, Decide, Validate, Revalidated, Written, Collides, Resolve, ReceiptFitsRequest, ValidKey;
    if Authorised(cfg, call, readings.entry).Ok? {
      var context := Authorised(cfg, call, readings.entry).value;
      RevalidatedMeans(cfg, call, readings.commit, context);
      if Load(db, call.scope).Ok? {
        var snapshot := Load(db, call.scope).value;
        NotPreparedLive(cfg, call, readings, context, snapshot, q);
        var rk := ReceiptKey(call.scope.app, context.actor, key);
        if rk in db.receipts {
          NotPreparedLive(cfg, call, readings, context, snapshot, db.receipts[rk].envelope.request);
        }
      }
    }
  }

  lemma NotPreparedLive(cfg: Config, call: Call, readings: Readings, context: Context, snapshot: Snapshot, q: Request)
    requires !LiveThroughout(cfg, call, readings) && Authorised(cfg, call, readings.entry) == Ok(context)
    ensures var p := Prepare(snapshot.spec, snapshot.facts, call, readings.prepare, q);
            p.Ok? && p.value.context == context ==> Revalidated(cfg, call, readings.commit, context).Some?
  {
    hide LiveThroughout, Authorised, Prepare, Revalidated, Resolve;
    PrepareUnfolds(snapshot.spec, snapshot.facts, call, readings.prepare, q);
    RevalidatedMeans(cfg, call, readings.commit, context);
    if Prepare(snapshot.spec, snapshot.facts, call, readings.prepare, q).Ok?
       && Prepare(snapshot.spec, snapshot.facts, call, readings.prepare, q).value.context == context
       && Authorised(cfg, call, readings.commit) == Ok(context) {
      LiveFrom(cfg, call, readings, context);
    }
  }

  /** The request reached the receipts: under one resolved authority, on a row its caller may write, with acceptable inputs. */
  ghost predicate ReachesReceipts(cfg: Config, books: Books, call: Call, readings: Readings, q: Request, context: Context) {
    && call.scope.tenant == cfg.tenant && call.scope.app in books
    && Authorised(cfg, call, readings.entry) == Ok(context)
    && var book := books[call.scope.app];
       var p := Prepare(book.spec, FactsAfter(book, |book.log|), call, readings.prepare, q);
       p.Ok? && p.value.context == context
  }

  /** A request conflicts exactly when it reaches the receipts and its key is bound there to another request or expected revision. */
  lemma ConflictMeans(cfg: Config, db: Db, books: Books, call: Call, readings: Readings, expected: nat, q: Request,
                      fault: Option<Stage>, ack: Ack)
    requires Journalled(cfg, db, books)
    ensures Execute(cfg, db, call, readings, expected, q, fault, ack).1 == Err(IntentConflict) <==>
              && fault != Some(AtStart)
              && exists context :: ReachesReceipts(cfg, books, call, readings, q, context)
                                   && var rk := ReceiptKey(call.scope.app, context.actor, q.key);
                                      rk in db.receipts && db.receipts[rk].envelope != Envelope(expected, q)
  {
    hide Journalled, Load, FactsAfter, Prepare, Authorised, Revalidated, Replay, Decide, Validate, Collides;
    AuthorisedErrors(cfg, call, readings.entry);
    if call.scope.tenant == cfg.tenant {
      LoadJournalled(cfg, db, books, call.scope);
    }
    if Authorised(cfg, call, readings.entry).Ok? {
      var context := Authorised(cfg, call, readings.entry).value;
      RevalidatedMeans(cfg, call, readings.commit, context);
      if ReceiptKey(call.scope.app, context.actor, q.key) in db.receipts && call.scope.tenant == cfg.tenant {
        ReplayJournalled(cfg, db, books, call, readings, expected, q, context);
      }
      if Execute(cfg, db, call, readings, expected, q, fault, ack).1 == Err(IntentConflict) {
        assert ReachesReceipts(cfg, books, call, readings, q, context);
      }
    }
  }
}
