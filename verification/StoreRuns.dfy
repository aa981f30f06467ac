/**
 Whole runs of one store, from an empty database: the journal they leave, and what counting the
 rows of any reachable database must give.
 */
module StoreRuns {
  import opened Wrappers
  import opened Sorting
  import opened AppSpec
  import opened Records
  import opened Authority
  import opened Commands
  import opened CommandProofs
  import opened Database
  import opened Journal
  import opened Histories
  import opened JournalRuns

  datatype Action =
    | Provision(spec: Spec, scope: Scope, facts: seq<RawRecord>, ack: Ack)
    | Submit(call: Call, readings: Readings, expected: nat, request: Request, fault: Option<Stage>, ack: Ack)

  ghost predicate Admissible(a: Action) {
    a.Provision? ==> Checked(a.spec)
  }

  const EMPTY := Db(map[], map[], map[], map[], map[])

  ghost function Act(cfg: Config, db: Db, a: Action): Db {
    match a
    case Provision(spec, scope, facts, ack) => Bootstrap(cfg, db, spec, scope, facts, ack).0
    case Submit(call, readings, expected, q, fault, ack) => Execute(cfg, db, call, readings, expected, q, fault, ack).0
  }

  ghost function DbAt(cfg: Config, actions: seq<Action>, n: nat): Db
    requires n <= |actions|
  {
    if n == 0 then EMPTY else Act(cfg, DbAt(cfg, actions, n - 1), actions[n - 1])
  }

  function EntryOf(cfg: Config, a: Action): Option<Entry>
    requires a.Submit?
  {
    match Authorised(cfg, a.call, a.readings.entry)
    case Err(_) => None
    case Ok(context) => Some(Entry(context, a.call.now, a.expected, a.request))
  }

  /** The journals after one action: the action appears in them exactly when it changed the tables. */
  ghost function Record(cfg: Config, db: Db, books: Books, a: Action): Books {
    if Act(cfg, db, a) == db then books
    else
      match a
      case Provision(spec, scope, facts, _) => books[spec.app := Book(spec, Canonical(spec, facts), [])]
      case Submit(call, _, _, _, _, _) =>
        if call.scope.app in books && EntryOf(cfg, a).Some?
        then books[call.scope.app := Grown(books[call.scope.app], EntryOf(cfg, a).value)]
        else books
  }

  ghost function BooksAt(cfg: Config, actions: seq<Action>, n: nat): Books
    requires n <= |actions|
  {
    if n == 0 then map[]
    else Record(cfg, DbAt(cfg, actions, n - 1), BooksAt(cfg, actions, n - 1), actions[n - 1])
  }

  // ------------------------------------------------------------ bootstrap

  lemma BootstrapAdds(cfg: Config, db: Db, books: Books, spec: Spec, scope: Scope, facts: seq<RawRecord>)
    requires Journalled(cfg, db, books) && Checked(spec) && spec.app !in books
    requires scope.tenant == cfg.tenant && ValidRows(spec, scope, facts)
    ensures var checked := Canonical(spec, facts);
            var next := db.(releases := db.releases[(spec.app, Digest(spec)) := spec],
                            applications := db.applications[spec.app := Application(Digest(spec), 1, checked)]);
            Journalled(cfg, next, books[spec.app := Book(spec, checked, [])])
  {
    hide Checked, CheckedRecords, ValidRows, Posted, Canonical, FactsAfter, NothingElse;
    var checked := Canonical(spec, facts);
    var book := Book(spec, checked, []);
    var next := db.(releases := db.releases[(spec.app, Digest(spec)) := spec],
                    applications := db.applications[spec.app := Application(Digest(spec), 1, checked)]);
    CanonicalChecked(spec, scope, facts);
    ValidScope(spec, scope, facts);
    assert scope == Scope(cfg.tenant, spec.app);
    FactsAfterNone(book);
    AddsOnly(db, next, books, spec, checked);
    JournalKeys(cfg, db, books, spec.app);
    assert HeadOk(cfg, next, spec.app, book);
    forall a | a in books
      ensures BookOk(cfg, next, a, books[a])
    {
      OtherBookKept(cfg, db, next, a, books[a]);
    }
  }

  lemma AddsOnly(db: Db, next: Db, books: Books, spec: Spec, checked: seq<RawRecord>)
    requires NothingElse(db, books) && spec.app !in books
    requires next == db.(releases := db.releases[(spec.app, Digest(spec)) := spec],
                         applications := db.applications[spec.app := Application(Digest(spec), 1, checked)])
    ensures NothingElse(next, books[spec.app := Book(spec, checked, [])])
  {
    var after := books[spec.app := Book(spec, checked, [])];
    assert next.applications.Keys == after.Keys;
    forall k | k in next.receipts
      ensures k.app in after && exists i :: 0 <= i < |after[k.app].log| && EntryKey(k.app, after[k.app].log[i]) == k
    {
      assert after[k.app] == books[k.app];
    }
  }

  lemma ValidScope(spec: Spec, scope: Scope, rows: seq<RawRecord>)
    requires ValidRows(spec, scope, rows)
    ensures scope.app == spec.app
  {
  }

  lemma OtherBookKept(cfg: Config, db: Db, next: Db, app: int, book: Book)
    requires BookOk(cfg, db, app, book)
    requires next.receipts == db.receipts && next.audit == db.audit && next.events == db.events
    requires app in next.applications && next.applications[app] == db.applications[app]
    requires forall k :: k in db.releases ==> k in next.releases && next.releases[k] == db.releases[k]
    ensures BookOk(cfg, next, app, book)
  {
    hide Checked, CheckedRecords, Posted, FactsAfter;
    forall i | 0 <= i < |book.log|
      ensures Posted(cfg, next, app, book, i)
    {
      SameEvents(db, next, app, i + 2);
      PostedKept(cfg, db, next, app, book, book, i);
    }
  }

  lemma SameEvents(db: Db, next: Db, app: int, revision: nat)
    requires next.events == db.events
    ensures EventsAt(next, app, revision) == EventsAt(db, app, revision)
  {
  }

  /** Provisioning never overwrites: it adds an application, or leaves every table as it was. */
  lemma BootstrapJournalled(cfg: Config, db: Db, books: Books, spec: Spec, scope: Scope, facts: seq<RawRecord>, ack: Ack)
    requires Journalled(cfg, db, books) && Checked(spec)
    ensures var (next, r) := Bootstrap(cfg, db, spec, scope, facts, ack);
            && r != Err(CorruptSnapshot)
            && (next != db ==> spec.app !in books && Journalled(cfg, next, books[spec.app := Book(spec, Canonical(spec, facts), [])]))
            && (r.Ok? ==> r.value.spec == spec && r.value.facts == Canonical(spec, facts))
            && (r.Ok? && spec.app !in books ==> r.value.revision == 1)
  {
    hide Checked, Journalled, ValidRows, Load, Canonical;
    if scope.tenant == cfg.tenant && ValidRows(spec, scope, facts) {
      var checked := Canonical(spec, facts);
      ValidScope(spec, scope, facts);
      JournalKeys(cfg, db, books, spec.app);
      var book := Book(spec, checked, []);
      if spec.app !in books {
        BootstrapAdds(cfg, db, books, spec, scope, facts);
        var next := db.(releases := db.releases[(spec.app, Digest(spec)) := spec],
                        applications := db.applications[spec.app := Application(Digest(spec), 1, checked)]);
        LoadJournalled(cfg, next, books[spec.app := book], scope);
        FactsAfterNone(book);
      } else {
        LoadJournalled(cfg, db, books, scope);
      }
    }
  }

  lemma JournalKeys(cfg: Config, db: Db, books: Books, app: int)
    requires Journalled(cfg, db, books)
    ensures app in db.applications <==> app in books
    ensures app in books ==> db.applications[app] == Application(Digest(books[app].spec), |books[app].log| + 1, FactsAfter(books[app], |books[app].log|))
    ensures app !in books ==> forall i :: (app, i) !in db.releases
  {
    hide Posted, FactsAfter, Checked, CheckedRecords;
    if app in books {
      assert BookOk(cfg, db, app, books[app]);
    }
  }

  // ------------------------------------------------------------ runs

  /** Every reachable database is journalled. */
  lemma {:induction false} RunJournalled(cfg: Config, actions: seq<Action>, n: nat)
    requires n <= |actions| && forall i :: 0 <= i < |actions| ==> Admissible(actions[i])
    ensures Journalled(cfg, DbAt(cfg, actions, n), BooksAt(cfg, actions, n))
  {
    hide Checked, Journalled, Execute, Bootstrap, Authorised;
    if n == 0 {
      EmptyJournalled(cfg);
    } else {
      RunJournalled(cfg, actions, n - 1);
      var db, books := DbAt(cfg, actions, n - 1), BooksAt(cfg, actions, n - 1);
      assert Admissible(actions[n - 1]);
      match actions[n - 1] {
        case Provision(spec, scope, facts, ack) => BootstrapJournalled(cfg, db, books, spec, scope, facts, ack);
        case Submit(call, readings, expected, q, fault, ack) =>
          ExecuteJournalled(cfg, db, books, call, readings, expected, q, fault, ack);
      }
    }
  }

  lemma EmptyJournalled(cfg: Config)
    ensures Journalled(cfg, EMPTY, map[])
  {
  }

  /** `after` continues `before`: the same definition and facts to start from, and every old entry in its place. */
  predicate Continues(before: Book, after: Book) {
    after.spec == before.spec && after.boot == before.boot && before.log <= after.log
  }

  /** Journals only grow. */
  lemma {:induction false} RunGrows(cfg: Config, actions: seq<Action>, m: nat, n: nat, app: int)
    requires m <= n <= |actions| && forall i :: 0 <= i < |actions| ==> Admissible(actions[i])
    requires app in BooksAt(cfg, actions, m)
    ensures app in BooksAt(cfg, actions, n) && Continues(BooksAt(cfg, actions, m)[app], BooksAt(cfg, actions, n)[app])
    decreases n
  {
    hide Checked, Journalled, Execute, Bootstrap, Authorised, DbAt;
    if m < n {
      RunGrows(cfg, actions, m, n - 1, app);
      RunJournalled(cfg, actions, n - 1);
      var db, books := DbAt(cfg, actions, n - 1), BooksAt(cfg, actions, n - 1);
      assert Admissible(actions[n - 1]);
      match actions[n - 1] {
        case Provision(spec, scope, facts, ack) => BootstrapJournalled(cfg, db, books, spec, scope, facts, ack);
        case Submit(_, _, _, _, _, _) =>
      }
    }
  }

  /** Submission `a` is answered, and found by its key, with the one receipt it committed with; nothing changes. */
  ghost predicate AnsweredOnce(cfg: Config, db: Db, books: Books, a: Action, call: Call, readings: Readings, fault: Option<Stage>,
                               ack: Ack)
    requires a.Submit?
  {
    && a.call.scope.app in books
    && var book := books[a.call.scope.app];
       && 1 <= a.expected <= |book.log| && PreparedOf(book.spec, book.log[a.expected - 1]).Some?
       && var original := Remembered(book, a.expected - 1);
          && original.key == a.request.key && original.revision == a.expected + 1 && original.replayed
          && Execute(cfg, db, call, readings, a.expected, a.request, fault, ack)
             == (db, if ack.Acked? then Ok(original) else Err(Storage))
          && ReadReceipt(cfg, db, call, readings, a.request.key) == Ok(Some(original))
  }

  lemma RetryAnswers(cfg: Config, db: Db, books: Books, a: Action, call: Call, readings: Readings, fault: Option<Stage>, ack: Ack)
    requires a.Submit? && Journalled(cfg, db, books) && a.call.scope.app in books
    requires 1 <= a.expected <= |books[a.call.scope.app].log|
    requires books[a.call.scope.app].log[a.expected - 1].request == a.request
    requires SameAuthority(cfg, a.call.scope.app, call, readings, books[a.call.scope.app].log[a.expected - 1].context)
    requires fault != Some(AtStart)
    ensures AnsweredOnce(cfg, db, books, a, call, readings, fault, ack)
  {
    hide Journalled, Execute, ReadReceipt, SameAuthority, PreparedOf, Remembered, Committed;
    var app := a.call.scope.app;
    var i := a.expected - 1;
    RetryReplays(cfg, db, books, app, i, call, readings, fault, ack);
    StoredRow(cfg, db, books, app, i);
    CommittedPrepared(cfg, app, books[app], i);
    RememberedMeans(books[app], i);
  }

  /**
   Exactly-once over runs: after a submission committed at step `m`, acknowledged or not, the same
   request under the same authority is answered with the original receipt at every later step `n`.
   */
  lemma ExactlyOnce(cfg: Config, actions: seq<Action>, m: nat, n: nat, call: Call, readings: Readings, fault: Option<Stage>, ack: Ack)
    requires m < n <= |actions| && forall i :: 0 <= i < |actions| ==> Admissible(actions[i])
    requires actions[m].Submit? && DbAt(cfg, actions, m + 1) != DbAt(cfg, actions, m)
    requires EntryOf(cfg, actions[m]).Some? ==>
               SameAuthority(cfg, actions[m].call.scope.app, call, readings, EntryOf(cfg, actions[m]).value.context)
    requires fault != Some(AtStart)
    ensures AnsweredOnce(cfg, DbAt(cfg, actions, n), BooksAt(cfg, actions, n), actions[m], call, readings, fault, ack)
  {
    hide Journalled, DbAt, BooksAt, EntryOf, AnsweredOnce, SameAuthority, Admissible;
    CommitRecorded(cfg, actions, m);
    RunGrows(cfg, actions, m + 1, n, actions[m].call.scope.app);
    RunJournalled(cfg, actions, n);
    RetryAnswers(cfg, DbAt(cfg, actions, n), BooksAt(cfg, actions, n), actions[m], call, readings, fault, ack);
  }

  lemma RememberedMeans(book: Book, i: nat)
    requires i < |book.log| && PreparedOf(book.spec, book.log[i]).Some?
    requires PreparedOf(book.spec, book.log[i]).value.request == book.log[i].request
    ensures var r := Remembered(book, i);
            r.key == book.log[i].request.key && r.revision == i + 2 && r.replayed && r.expected == book.log[i].expected
  {
  }

  /** A submission that changed the tables is the newest entry of its journal. */
  lemma CommitRecorded(cfg: Config, actions: seq<Action>, m: nat)
    requires m < |actions| && forall i :: 0 <= i < |actions| ==> Admissible(actions[i])
    requires actions[m].Submit? && DbAt(cfg, actions, m + 1) != DbAt(cfg, actions, m)
    ensures var a := actions[m];
            var book := BooksAt(cfg, actions, m + 1);
            && EntryOf(cfg, a).Some?
            && a.call.scope.app in book
            && a.expected >= 1 && a.expected == |book[a.call.scope.app].log|
            && book[a.call.scope.app].log[a.expected - 1] == EntryOf(cfg, a).value
            && EntryOf(cfg, a).value.request == a.request
  {
    hide Checked, Journalled, Execute, Authorised, FactsAfter, Admissible;
    var a := actions[m];
    RunJournalled(cfg, actions, m);
    ExecuteJournalled(cfg, DbAt(cfg, actions, m), BooksAt(cfg, actions, m), a.call, a.readings, a.expected, a.request, a.fault, a.ack);
  }

  // ------------------------------------------------------------ counting

  function AuditRows(db: Db, app: int): set<AuditKey> {
    set k | k in db.audit && k.app == app
  }

  function ReceiptRows(db: Db, app: int): set<ReceiptKey> {
    set k | k in db.receipts && k.app == app
  }

  function EntryKeys(app: int, log: seq<Entry>): set<ReceiptKey> {
    set i | 0 <= i < |log| :: EntryKey(app, log[i])
  }

  lemma {:induction false} EntryKeysCount(app: int, log: seq<Entry>)
    requires forall i, j :: 0 <= i < j < |log| ==> EntryKey(app, log[i]) != EntryKey(app, log[j])
    ensures |EntryKeys(app, log)| == |log|
  {
    if log != [] {
      var n := |log| - 1;
      var front := log[..n];
      EntryKeysCount(app, front);
      assert forall i :: 0 <= i < n ==> front[i] == log[i];
      assert EntryKeys(app, log) == EntryKeys(app, front) + {EntryKey(app, log[n])};
    }
  }

  function AuditKeys(app: int, n: nat): set<AuditKey> {
    set r: nat | 2 <= r < n + 2 :: AuditKey(app, r)
  }

  lemma {:induction false} AuditKeysCount(app: int, n: nat)
    ensures |AuditKeys(app, n)| == n
  {
    if n > 0 {
      AuditKeysCount(app, n - 1);
      assert AuditKeys(app, n) == AuditKeys(app, n - 1) + {AuditKey(app, n + 1)};
    }
  }

  lemma PostedRows(cfg: Config, db: Db, books: Books, app: int, i: nat)
    requires Journalled(cfg, db, books) && app in books && i < |books[app].log|
    ensures EntryKey(app, books[app].log[i]) in db.receipts
    ensures db.receipts[EntryKey(app, books[app].log[i])].envelope == Envelope(i + 1, books[app].log[i].request)
    ensures db.receipts[EntryKey(app, books[app].log[i])].receipt.revision == i + 2
    ensures AuditKey(app, i + 2) in db.audit
  {
    hide HeadOk, NothingElse, FactsAfter, Decided, Decide, EventsAt, EventRows;
    assert BookOk(cfg, db, app, books[app]);
    assert Posted(cfg, db, app, books[app], i);
  }

  lemma ReceiptRowsAre(cfg: Config, db: Db, books: Books, app: int)
    requires Journalled(cfg, db, books) && app in books
    ensures ReceiptRows(db, app) == EntryKeys(app, books[app].log)
    ensures |ReceiptRows(db, app)| == |books[app].log|
  {
    hide HeadOk, Posted;
    assert BookOk(cfg, db, app, books[app]);
    EntryKeysCount(app, books[app].log);
    forall i | 0 <= i < |books[app].log|
      ensures EntryKey(app, books[app].log[i]) in ReceiptRows(db, app)
    {
      PostedRows(cfg, db, books, app, i);
    }
    assert ReceiptRows(db, app) == EntryKeys(app, books[app].log);
  }

  lemma AuditRowsAre(cfg: Config, db: Db, books: Books, app: int)
    requires Journalled(cfg, db, books) && app in books
    ensures AuditRows(db, app) == AuditKeys(app, |books[app].log|)
    ensures |AuditRows(db, app)| == |books[app].log|
  {
    hide BookOk;
    AuditKeysCount(app, |books[app].log|);
    forall k
      ensures k in AuditRows(db, app) <==> k in AuditKeys(app, |books[app].log|)
    {
      if k.app == app && 2 <= k.revision < |books[app].log| + 2 {
        PostedRows(cfg, db, books, app, k.revision - 2);
      }
      if k in AuditRows(db, app) {
        assert k == AuditKey(app, k.revision);
      }
    }
  }

  /** The revision counts the receipts and the audit rows of the application, and numbers them without gap or repeat. */
  lemma RowsCountRevision(cfg: Config, db: Db, books: Books, app: int)
    requires Journalled(cfg, db, books) && app in books
    ensures app in db.applications
    ensures db.applications[app].revision == 1 + |ReceiptRows(db, app)| == 1 + |AuditRows(db, app)|
    ensures forall k :: k in AuditRows(db, app) <==> k.app == app && 2 <= k.revision <= db.applications[app].revision
    ensures forall k :: k in ReceiptRows(db, app) ==>
              k in db.receipts && 2 <= db.receipts[k].receipt.revision <= db.applications[app].revision
    ensures forall a :: a in AuditRows(db, app) ==>
              exists k :: k in ReceiptRows(db, app) && db.receipts[k].receipt.revision == a.revision
    ensures forall j, k :: (j in ReceiptRows(db, app) && k in ReceiptRows(db, app)
                            && db.receipts[j].receipt.revision == db.receipts[k].receipt.revision)
                           ==> j == k
  {
    hide Journalled, FactsAfter;
    JournalKeys(cfg, db, books, app);
    ReceiptRowsAre(cfg, db, books, app);
    AuditRowsAre(cfg, db, books, app);
    var log := books[app].log;
    forall i | 0 <= i < |log|
      ensures EntryKey(app, log[i]) in db.receipts && db.receipts[EntryKey(app, log[i])].receipt.revision == i + 2
    {
      PostedRows(cfg, db, books, app, i);
    }
    forall k
      ensures k in AuditRows(db, app) <==> k.app == app && 2 <= k.revision < |log| + 2
    {
      assert k == AuditKey(k.app, k.revision);
    }
    forall a | a in AuditRows(db, app)
      ensures exists k :: k in ReceiptRows(db, app) && db.receipts[k].receipt.revision == a.revision
    {
      assert EntryKey(app, log[a.revision - 2]) in EntryKeys(app, log);
    }
  }

  /** The facts of revision `n + 1` are the fold of the first `n` stored requests over the bootstrap facts. */
  lemma FactsAreTheFold(cfg: Config, db: Db, books: Books, app: int)
    requires Journalled(cfg, db, books) && app in books
    ensures app in db.applications
    ensures db.applications[app].facts == Folded(books[app].spec, books[app].boot, books[app].log)
    ensures forall i :: 0 <= i < |books[app].log| ==>
              && EntryKey(app, books[app].log[i]) in db.receipts
              && db.receipts[EntryKey(app, books[app].log[i])].envelope == Envelope(i + 1, books[app].log[i].request)
              && db.receipts[EntryKey(app, books[app].log[i])].receipt.revision == i + 2
  {
    hide Journalled, Folded;
    JournalKeys(cfg, db, books, app);
    assert books[app].log[..|books[app].log|] == books[app].log;
    forall i | 0 <= i < |books[app].log|
      ensures EntryKey(app, books[app].log[i]) in db.receipts
      ensures db.receipts[EntryKey(app, books[app].log[i])].envelope == Envelope(i + 1, books[app].log[i].request)
      ensures db.receipts[EntryKey(app, books[app].log[i])].receipt.revision == i + 2
    {
      PostedRows(cfg, db, books, app, i);
    }
  }

  /** The events of revision `i + 2` are the declared projections of the facts of that revision, in declared order. */
  lemma EventsProjectFacts(cfg: Config, db: Db, books: Books, app: int, i: nat)
    requires Journalled(cfg, db, books) && app in books && i < |books[app].log|
    ensures PreparedOf(books[app].spec, books[app].log[i]).Some?
    ensures var book := books[app];
            var p := PreparedOf(book.spec, book.log[i]).value;
            var row := RowAt(book, i + 1, TargetOf(book, i));
            && row.Some?
            && EventsAt(db, app, i + 2) == EventRows(app, i + 2, Digest(book.spec), EventsOf(p.command.events, row.value))
            && forall e, f :: e in p.command.events && f in e.fields ==> f in p.policy.readFields && f in row.value.values
  {
    hide Lawful, Committed, FactsAfter, Bound, EventsAt, EventRows, EventsOf, Decide, RowAt, NothingElse, HeadOk;
    var book := books[app];
    BookHead(cfg, db, books, app);
    assert Posted(cfg, db, app, book, i);
    CommittedPrepared(cfg, app, book, i);
    CommitRow(cfg, app, book, i);
    HistoryChecked(cfg, app, book, i + 1);
    EventFields(book.spec, Scope(cfg.tenant, app), FactsAfter(book, i + 1), PreparedOf(book.spec, book.log[i]).value,
                RowAt(book, i + 1, TargetOf(book, i)).value);
  }

  /** Commit `i` leaves its decided row in the facts of the next revision. */
  lemma CommitRow(cfg: Config, app: int, book: Book, i: nat)
    requires Lawful(cfg, app, book) && i < |book.log| && PreparedOf(book.spec, book.log[i]).Some?
    ensures var p := PreparedOf(book.spec, book.log[i]).value;
            var d := Decide(book.spec, Scope(cfg.tenant, app), FactsAfter(book, i), p);
            && d.Ok?
            && RowAt(book, i + 1, TargetOf(book, i)) == Some(d.value.row)
            && d.value.row in FactsAfter(book, i + 1) && d.value.row.table == p.machine.table
            && d.value.events == EventsOf(p.command.events, d.value.row)
  {
    hide Checked, CheckedRecords, Decide, FactsAfter, Bound, Allows, Advances, Validate, GuardsHold, ReplaceRow, FindRow, EventsOf,
      Proposed;
    var scope := Scope(cfg.tenant, app);
    assert Committed(cfg, app, book, i);
    CommittedPrepared(cfg, app, book, i);
    var p := PreparedOf(book.spec, book.log[i]).value;
    HistoryChecked(cfg, app, book, i);
    DecisionMeans(book.spec, scope, FactsAfter(book, i), p);
    CheckedDistinct(book.spec, scope, FactsAfter(book, i));
    ReplaceRowFind(FactsAfter(book, i), Decide(book.spec, scope, FactsAfter(book, i), p).value.row);
  }

  lemma EventFields(spec: Spec, scope: Scope, facts: seq<RawRecord>, p: Prepared, row: RawRecord)
    requires Checked(spec) && CheckedRecords(spec, scope, facts) && Bound(spec, p) && row in facts && row.table == p.machine.table
    ensures forall e, f :: e in p.command.events && f in e.fields ==> f in p.policy.readFields && f in row.values
  {
    hide CheckedRecords, TablesChecked, ConstraintsChecked, CapturesChecked, MachinesChecked, CommandsChecked, InputsAccepted,
      FieldOf, KnownField;
    RowNormal(spec, scope, facts, row);
    assert PolicyChecked(spec, p.policy);
    forall e, f | e in p.command.events && f in e.fields
      ensures f in p.policy.readFields && f in row.values
    {
      assert TypeOf(spec, p.policy.table, f).Some?;
      FieldIsKnown(spec, p.policy.table, f);
    }
  }
}
