/**
 The journal behind the tables. Every reachable database is the image of one journal per
 application: the facts it was bootstrapped with and the requests that committed, in order.
 */
module Journal {
  import opened Wrappers
  import opened Sorting
  import opened AppSpec
  import opened Records
  import opened Authority
  import opened Commands
  import opened CommandProofs
  import opened Database

  /** One committed request, and the authority it committed under. */
  datatype Entry = Entry(context: Context, now: nat, expected: nat, request: Request)

  datatype Book = Book(spec: Spec, boot: seq<RawRecord>, log: seq<Entry>)

  type Books = map<int, Book>

  // ------------------------------------------------------------ the fold of the stored requests

  /** One stored request applied to the facts: no authority, no revision, no validation. */
  function Applied(spec: Spec, facts: seq<RawRecord>, q: Request): seq<RawRecord> {
    match FindCommand(spec.commands, q.command)
    case None => facts
    case Some(command) =>
      match FindMachine(spec.machines, command.machine)
      case None => facts
      case Some(machine) =>
        match FindRow(facts, Key(machine.table, q.record))
        case None => facts
        case Some(row) => ReplaceRow(facts, Advanced(machine, command, q.inputs, row))
  }

  function Folded(spec: Spec, boot: seq<RawRecord>, log: seq<Entry>): seq<RawRecord> {
    if log == [] then boot
    else Applied(spec, Folded(spec, boot, log[..|log| - 1]), log[|log| - 1].request)
  }

  /** The facts after the first `n` commits. */
  function FactsAfter(book: Book, n: nat): seq<RawRecord>
    requires n <= |book.log|
  {
    Folded(book.spec, book.boot, book.log[..n])
  }

  // ------------------------------------------------------------ the image of a journal

  function PreparedOf(spec: Spec, e: Entry): Option<Prepared> {
    match FindCommand(spec.commands, e.request.command)
    case None => None
    case Some(command) =>
      match (FindMachine(spec.machines, command.machine), FindPolicy(spec.policies, command.policy))
      case (Some(machine), Some(policy)) => Some(Prepared(e.context, policy, command, machine, e.request))
      case _ => None
  }

  function SnapshotAt(book: Book, n: nat): Snapshot
    requires n <= |book.log|
  {
    Snapshot(book.spec, FactsAfter(book, n), n + 1, Digest(book.spec))
  }

  function EntryKey(app: int, e: Entry): ReceiptKey {
    ReceiptKey(app, e.context.actor, e.request.key)
  }

  /** The decision that entry `e` stands for was open on the facts it met. */
  ghost predicate Decided(spec: Spec, scope: Scope, facts: seq<RawRecord>, e: Entry) {
    var p := PreparedOf(spec, e);
    && p.Some? && Bound(spec, p.value)
    && e.context.scope == scope
    && FindRow(facts, Key(p.value.machine.table, e.request.record)).Some?
    && Allows(p.value.policy, e.context, FindRow(facts, Key(p.value.machine.table, e.request.record)).value)
    && Decide(spec, scope, facts, p.value).Ok?
  }

  /** The event rows of one revision. */
  function EventsAt(db: Db, app: int, revision: nat): map<EventKey, EventRow> {
    map k | k in db.events && k.app == app && k.revision == revision :: db.events[k]
  }

  /** Commit `i` was decided on the facts of revision `i + 1` and left the facts of revision `i + 2`. */
  ghost predicate Committed(cfg: Config, app: int, book: Book, i: nat)
    requires i < |book.log|
  {
    var e := book.log[i];
    && e.expected == i + 1
    && e.context.binding == cfg.binding
    && Decided(book.spec, Scope(cfg.tenant, app), FactsAfter(book, i), e)
    && Decide(book.spec, Scope(cfg.tenant, app), FactsAfter(book, i), PreparedOf(book.spec, e).value).value.facts
       == FactsAfter(book, i + 1)
  }

  function ReceiptOf(book: Book, i: nat, p: Prepared): ReceiptRow
    requires i < |book.log|
  {
    var e := book.log[i];
    ReceiptRow(IntentOf(SnapshotAt(book, i), e.expected, e.request), Envelope(e.expected, e.request),
               NewReceipt(SnapshotAt(book, i), p, e.expected))
  }

  function AuditOf(app: int, tenant: int, book: Book, i: nat, p: Prepared): Audit
    requires i < |book.log|
  {
    var e := book.log[i];
    NewAudit(SnapshotAt(book, i), Call("", Scope(tenant, app), NativeBearer, e.now), p, e.expected)
  }

  /** Everything the tables hold about commit `i`. */
  ghost predicate Posted(cfg: Config, db: Db, app: int, book: Book, i: nat)
    requires i < |book.log|
  {
    && Committed(cfg, app, book, i)
    && var p := PreparedOf(book.spec, book.log[i]).value;
       var d := Decide(book.spec, Scope(cfg.tenant, app), FactsAfter(book, i), p).value;
       && EntryKey(app, book.log[i]) in db.receipts
       && db.receipts[EntryKey(app, book.log[i])] == ReceiptOf(book, i, p)
       && AuditKey(app, i + 2) in db.audit
       && db.audit[AuditKey(app, i + 2)] == AuditOf(app, cfg.tenant, book, i, p)
       && EventsAt(db, app, i + 2) == EventRows(app, i + 2, Digest(book.spec), d.events)
  }

  ghost predicate HeadOk(cfg: Config, db: Db, app: int, book: Book) {
    && Checked(book.spec) && book.spec.app == app
    && CheckedRecords(book.spec, Scope(cfg.tenant, app), book.boot)
    && CheckedRecords(book.spec, Scope(cfg.tenant, app), FactsAfter(book, |book.log|))
    && |book.log| + 1 <= I64_MAX
    && app in db.applications
    && db.applications[app] == Application(Digest(book.spec), |book.log| + 1, FactsAfter(book, |book.log|))
    && (app, Digest(book.spec)) in db.releases && db.releases[(app, Digest(book.spec))] == book.spec
  }

  ghost predicate BookOk(cfg: Config, db: Db, app: int, book: Book) {
    && HeadOk(cfg, db, app, book)
    && (forall i :: 0 <= i < |book.log| ==> Posted(cfg, db, app, book, i))
    && (forall i, j :: 0 <= i < j < |book.log| ==> EntryKey(app, book.log[i]) != EntryKey(app, book.log[j]))
  }

  /** No table holds a row that the journal does not account for. */
  ghost predicate NothingElse(db: Db, books: Books) {
    && db.applications.Keys == books.Keys
    && (forall k :: k in db.releases ==> k.0 in books && k.1 == Digest(books[k.0].spec))
    && (forall k :: k in db.receipts ==>
          k.app in books && exists i :: 0 <= i < |books[k.app].log| && EntryKey(k.app, books[k.app].log[i]) == k)
    && (forall k :: k in db.audit ==> k.app in books && 2 <= k.revision <= |books[k.app].log| + 1)
    && (forall k :: k in db.events ==> k.app in books && 2 <= k.revision <= |books[k.app].log| + 1)
  }

  ghost predicate Journalled(cfg: Config, db: Db, books: Books) {
    && NothingElse(db, books)
    && forall app :: app in books ==> BookOk(cfg, db, app, books[app])
  }

  // ------------------------------------------------------------ loading a journalled database

  /** Every application loads, and loads exactly its journal. */
  lemma LoadJournalled(cfg: Config, db: Db, books: Books, scope: Scope)
    requires Journalled(cfg, db, books) && scope.tenant == cfg.tenant
    ensures Load(db, scope) == if scope.app in books then Ok(SnapshotAt(books[scope.app], |books[scope.app].log|)) else Err(AppNotFound)
  {
    hide Checked, CheckedRecords, Validate, Folded, Posted;
    if scope.app in books {
      assert BookOk(cfg, db, scope.app, books[scope.app]);
      assert scope == Scope(cfg.tenant, scope.app);
      CheckedFixed(books[scope.app].spec, scope, FactsAfter(books[scope.app], |books[scope.app].log|));
    }
  }

  // ------------------------------------------------------------ growing a journal

  lemma FactsAfterLast(book: Book, e: Entry)
    ensures FactsAfter(book.(log := book.log + [e]), |book.log| + 1)
            == Applied(book.spec, FactsAfter(book, |book.log|), e.request)
  {
    var log := book.log + [e];
    assert log[..|book.log| + 1] == log;
    assert log[..|log| - 1] == book.log;
    assert book.log[..|book.log|] == book.log;
  }

  /** Old commits stay posted while rows are only added, and none to the events of their revision. */
  lemma PostedKept(cfg: Config, db: Db, next: Db, app: int, book: Book, grown: Book, i: nat)
    requires i < |book.log| && Posted(cfg, db, app, book, i)
    requires grown.spec == book.spec && grown.boot == book.boot && book.log <= grown.log
    requires forall k :: k in db.receipts ==> k in next.receipts && next.receipts[k] == db.receipts[k]
    requires forall k :: k in db.audit ==> k in next.audit && next.audit[k] == db.audit[k]
    requires EventsAt(next, app, i + 2) == EventsAt(db, app, i + 2)
    ensures Posted(cfg, next, app, grown, i)
  {
    hide Folded, Decide, Decided, EventsAt, EventRows;
    assert grown.log[..i] == book.log[..i] && grown.log[..i + 1] == book.log[..i + 1];
    assert grown.log[i] == book.log[i];
  }

  lemma AppliedMeans(spec: Spec, facts: seq<RawRecord>, p: Prepared)
    requires Bound(spec, p) && FindRow(facts, Key(p.machine.table, p.request.record)).Some?
    ensures Applied(spec, facts, p.request)
            == ReplaceRow(facts, Proposed(p, FindRow(facts, Key(p.machine.table, p.request.record)).value))
  {
  }

  function Grown(book: Book, e: Entry): Book {
    book.(log := book.log + [e])
  }

  /** What a commit that is about to be written rests on. */
  ghost predicate Commits(cfg: Config, db: Db, books: Books, call: Call, expected: nat, p: Prepared, d: Decision)
  {
    && Journalled(cfg, db, books)
    && call.scope.tenant == cfg.tenant && call.scope.app in books
    && var book := books[call.scope.app];
       && expected == |book.log| + 1 && |book.log| + 2 <= I64_MAX
       && p.context.binding == cfg.binding && p.context.scope == call.scope
       && Bound(book.spec, p)
       && FindRow(FactsAfter(book, |book.log|), Key(p.machine.table, p.request.record)).Some?
       && Allows(p.policy, p.context, FindRow(FactsAfter(book, |book.log|), Key(p.machine.table, p.request.record)).value)
       && Decide(book.spec, call.scope, FactsAfter(book, |book.log|), p) == Ok(d)
       && ReceiptKey(call.scope.app, p.context.actor, p.request.key) !in db.receipts
  }

  lemma CommitFacts(cfg: Config, db: Db, books: Books, call: Call, expected: nat, p: Prepared, d: Decision)
    requires Commits(cfg, db, books, call, expected, p, d)
    ensures var book := books[call.scope.app];
            var e := Entry(p.context, call.now, expected, p.request);
            && Validate(book.spec, call.scope, ReplaceRow(FactsAfter(book, |book.log|), d.row)) == Some(d.facts)
            && FactsAfter(Grown(book, e), |book.log| + 1) == d.facts
            && CheckedRecords(book.spec, call.scope, d.facts)
            && PreparedOf(book.spec, e) == Some(p)
            && FactsAfter(Grown(book, e), |book.log|) == FactsAfter(book, |book.log|)
            && Committed(cfg, call.scope.app, Grown(book, e), |book.log|)
  {
    hide Checked, CheckedRecords, Validate, Decide, Folded, Posted, Allows, Advances, GuardsHold, Applied, Proposed, NothingElse;
    var book := books[call.scope.app];
    assert BookOk(cfg, db, call.scope.app, book);
    assert call.scope == Scope(cfg.tenant, call.scope.app);
    var facts := FactsAfter(book, |book.log|);
    DecisionMeans(book.spec, call.scope, facts, p);
    AppliedMeans(book.spec, facts, p);
    var e := Entry(p.context, call.now, expected, p.request);
    FactsAfterLast(book, e);
    assert (book.log + [e])[..|book.log|] == book.log[..|book.log|];
    BoundFound(book.spec, p);
  }

  lemma BoundFound(spec: Spec, p: Prepared)
    requires Bound(spec, p)
    ensures FindCommand(spec.commands, p.request.command) == Some(p.command)
    ensures FindMachine(spec.machines, p.command.machine) == Some(p.machine)
    ensures FindPolicy(spec.policies, p.command.policy) == Some(p.policy)
    ensures p.command.id == p.request.command
  {
  }

  lemma EventRowsAt(app: int, revision: nat, identity: Identity, events: seq<Event>)
    ensures forall k :: k in EventRows(app, revision, identity, events) <==>
              k.app == app && k.revision == revision && k.index < |events|
    ensures forall k :: k in EventRows(app, revision, identity, events) ==>
              EventRows(app, revision, identity, events)[k] == EventRow(events[k.index], revision, identity)
  {
    var rows := EventRows(app, revision, identity, events);
    forall k
      ensures k in rows <==> k.app == app && k.revision == revision && k.index < |events|
    {
      if k.app == app && k.revision == revision && k.index < |events| {
        assert k == EventKey(app, revision, k.index);
      }
    }
  }

  /** The event rows of a commit are the only ones of its revision, and touch no other revision. */
  lemma EventsAfterCommit(db: Db, next: Db, app: int, revision: nat, identity: Identity, events: seq<Event>)
    requires next.events == db.events + EventRows(app, revision, identity, events)
    requires EventsAt(db, app, revision) == map[]
    ensures EventsAt(next, app, revision) == EventRows(app, revision, identity, events)
    ensures forall a: int, r: nat :: (a, r) != (app, revision) ==> EventsAt(next, a, r) == EventsAt(db, a, r)
  {
    EventRowsAt(app, revision, identity, events);
    forall k
      ensures k in EventsAt(next, app, revision) <==> k in EventRows(app, revision, identity, events)
    {
      assert k in db.events && k.app == app && k.revision == revision ==> k in EventsAt(db, app, revision);
    }
    assert EventsAt(next, app, revision) == EventRows(app, revision, identity, events);
    forall a: int, r: nat | (a, r) != (app, revision)
      ensures EventsAt(next, a, r) == EventsAt(db, a, r)
    {
      assert EventsAt(next, a, r).Keys == EventsAt(db, a, r).Keys;
    }
  }

  /** A journalled database never meets a taken primary key. */
  lemma NoCollision(cfg: Config, db: Db, books: Books, app: int, events: nat)
    requires Journalled(cfg, db, books) && app in books
    ensures !Collides(db, app, |books[app].log| + 2, events)
    ensures EventsAt(db, app, |books[app].log| + 2) == map[]
  {
    hide BookOk;
    assert EventsAt(db, app, |books[app].log| + 2).Keys == {};
  }

  lemma CommitEvents(cfg: Config, db: Db, books: Books, call: Call, expected: nat, p: Prepared, d: Decision)
    requires Journalled(cfg, db, books) && call.scope.app in books
    ensures var book := books[call.scope.app];
            var next := Written(db, call, SnapshotAt(book, |book.log|), expected, p, d, d.facts);
            && EventsAt(next, call.scope.app, |book.log| + 2)
               == EventRows(call.scope.app, |book.log| + 2, Digest(book.spec), d.events)
            && (forall a: int, r: nat :: (a, r) != (call.scope.app, |book.log| + 2) ==> EventsAt(next, a, r) == EventsAt(db, a, r))
  {
    hide Journalled, FactsAfter, EventsAt, EventRows, Collides;
    var book := books[call.scope.app];
    var next := Written(db, call, SnapshotAt(book, |book.log|), expected, p, d, d.facts);
    NoCollision(cfg, db, books, call.scope.app, |d.events|);
    EventsAfterCommit(db, next, call.scope.app, |book.log| + 2, Digest(book.spec), d.events);
  }

  lemma CommitPosted(cfg: Config, db: Db, books: Books, call: Call, expected: nat, p: Prepared, d: Decision)
    requires Commits(cfg, db, books, call, expected, p, d)
    ensures var book := books[call.scope.app];
            var e := Entry(p.context, call.now, expected, p.request);
            var next := Written(db, call, SnapshotAt(book, |book.log|), expected, p, d, d.facts);
            && Posted(cfg, next, call.scope.app, Grown(book, e), |book.log|)
            && (forall a: int, r: nat :: (a, r) != (call.scope.app, |book.log| + 2) ==> EventsAt(next, a, r) == EventsAt(db, a, r))
  {
    hide Decide, FactsAfter, Committed, Bound, Allows, EventsAt, EventRows, Journalled, FindRow, PreparedOf;
    var app := call.scope.app;
    var book := books[app];
    var e := Entry(p.context, call.now, expected, p.request);
    assert call.scope == Scope(cfg.tenant, app);
    CommitFacts(cfg, db, books, call, expected, p, d);
    CommitEvents(cfg, db, books, call, expected, p, d);
    assert Grown(book, e).log[|book.log|] == e;
  }

  lemma CommitHead(cfg: Config, db: Db, books: Books, call: Call, expected: nat, p: Prepared, d: Decision)
    requires Commits(cfg, db, books, call, expected, p, d)
    ensures var book := books[call.scope.app];
            var e := Entry(p.context, call.now, expected, p.request);
            var next := Written(db, call, SnapshotAt(book, |book.log|), expected, p, d, d.facts);
            HeadOk(cfg, next, call.scope.app, Grown(book, e))
  {
    hide Decide, FactsAfter, Decided, Bound, Allows, EventsAt, EventRows, NothingElse, Posted, Checked, CheckedRecords, FindRow;
    var app := call.scope.app;
    assert BookOk(cfg, db, app, books[app]);
    assert call.scope == Scope(cfg.tenant, app);
    CommitFacts(cfg, db, books, call, expected, p, d);
  }

  lemma CommitKeepsBook(cfg: Config, db: Db, books: Books, call: Call, expected: nat, p: Prepared, d: Decision)
    requires Commits(cfg, db, books, call, expected, p, d)
    ensures var book := books[call.scope.app];
            var e := Entry(p.context, call.now, expected, p.request);
            var next := Written(db, call, SnapshotAt(book, |book.log|), expected, p, d, d.facts);
            BookOk(cfg, next, call.scope.app, Grown(book, e))
  {
    hide Decide, Decided, Bound, Allows, EventsAt, EventRows, HeadOk, Posted, FactsAfter;
    var app := call.scope.app;
    var book := books[app];
    var e := Entry(p.context, call.now, expected, p.request);
    var grown := Grown(book, e);
    var next := Written(db, call, SnapshotAt(book, |book.log|), expected, p, d, d.facts);
    CommitPosted(cfg, db, books, call, expected, p, d);
    CommitHead(cfg, db, books, call, expected, p, d);
    assert BookOk(cfg, db, app, book);
    AuditFree(cfg, db, books, app);
    forall i | 0 <= i < |grown.log|
      ensures Posted(cfg, next, app, grown, i)
    {
      if i < |book.log| {
        PostedKept(cfg, db, next, app, book, grown, i);
      }
    }
    forall i, j | 0 <= i < j < |grown.log|
      ensures EntryKey(app, grown.log[i]) != EntryKey(app, grown.log[j])
    {
      assert grown.log[i] == book.log[i];
      PostedKey(cfg, db, app, book, i);
      assert j < |book.log| ==> grown.log[j] == book.log[j];
    }
  }

  lemma PostedKey(cfg: Config, db: Db, app: int, book: Book, i: nat)
    requires i < |book.log| && Posted(cfg, db, app, book, i)
    ensures EntryKey(app, book.log[i]) in db.receipts
  {
    hide Committed, Decide;
  }

  lemma AuditFree(cfg: Config, db: Db, books: Books, app: int)
    requires Journalled(cfg, db, books) && app in books
    ensures AuditKey(app, |books[app].log| + 2) !in db.audit
  {
    hide BookOk;
  }

  lemma CommitKeepsOther(cfg: Config, db: Db, books: Books, call: Call, expected: nat, p: Prepared, d: Decision, app: int)
    requires Commits(cfg, db, books, call, expected, p, d) && app in books && app != call.scope.app
    ensures var book := books[call.scope.app];
            var next := Written(db, call, SnapshotAt(book, |book.log|), expected, p, d, d.facts);
            BookOk(cfg, next, app, books[app])
  {
    hide Decide, Decided, Bound, Allows, EventsAt, EventRows, Posted, FactsAfter, Checked, CheckedRecords;
    var mine := books[call.scope.app];
    var book := books[app];
    var next := Written(db, call, SnapshotAt(mine, |mine.log|), expected, p, d, d.facts);
    CommitPosted(cfg, db, books, call, expected, p, d);
    assert BookOk(cfg, db, app, book);
    AuditFree(cfg, db, books, call.scope.app);
    forall i | 0 <= i < |book.log|
      ensures Posted(cfg, next, app, book, i)
    {
      PostedKept(cfg, db, next, app, book, book, i);
    }
  }

  /** A commit appends one entry to one journal, and leaves a journalled database. */
  lemma CommitJournalled(cfg: Config, db: Db, books: Books, call: Call, expected: nat, p: Prepared, d: Decision)
    requires Commits(cfg, db, books, call, expected, p, d)
    ensures var book := books[call.scope.app];
            var e := Entry(p.context, call.now, expected, p.request);
            var next := Written(db, call, SnapshotAt(book, |book.log|), expected, p, d, d.facts);
            Journalled(cfg, next, books[call.scope.app := Grown(book, e)])
  {
    hide Decide, Bound, Allows, BookOk, FactsAfter;
    var app := call.scope.app;
    var book := books[app];
    var e := Entry(p.context, call.now, expected, p.request);
    var next := Written(db, call, SnapshotAt(book, |book.log|), expected, p, d, d.facts);
    var after := books[app := Grown(book, e)];
    CommitKeepsBook(cfg, db, books, call, expected, p, d);
    forall a | a in after
      ensures BookOk(cfg, next, a, after[a])
    {
      if a != app {
        CommitKeepsOther(cfg, db, books, call, expected, p, d, a);
      }
    }
    CommitAddsOnly(db, next, books, after, app, e, call, expected, p, d);
  }

  lemma CommitAddsOnly(db: Db, next: Db, books: Books, after: Books, app: int, e: Entry, call: Call, expected: nat, p: Prepared,
                       d: Decision)
    requires NothingElse(db, books) && app in books && app == call.scope.app
    requires after == books[app := Grown(books[app], e)] && e == Entry(p.context, call.now, expected, p.request)
    requires next == Written(db, call, SnapshotAt(books[app], |books[app].log|), expected, p, d, d.facts)
    ensures NothingElse(next, after)
  {
    hide FactsAfter, EventRows;
    var n := |books[app].log|;
    EventRowsAt(app, n + 2, Digest(books[app].spec), d.events);
    assert after.Keys == books.Keys && next.applications.Keys == db.applications.Keys + {app};
    ReceiptsAccounted(db, next, books, after, app, e);
  }

  lemma ReceiptsAccounted(db: Db, next: Db, books: Books, after: Books, app: int, e: Entry)
    requires NothingElse(db, books) && app in books && after == books[app := Grown(books[app], e)]
    requires forall k :: k in next.receipts ==> k in db.receipts || k == EntryKey(app, e)
    ensures forall k :: k in next.receipts ==>
              k.app in after && exists i :: 0 <= i < |after[k.app].log| && EntryKey(k.app, after[k.app].log[i]) == k
  {
    var n := |books[app].log|;
    assert after[app].log[n] == e;
    forall k | k in next.receipts
      ensures k.app in after && exists i :: 0 <= i < |after[k.app].log| && EntryKey(k.app, after[k.app].log[i]) == k
    {
      if k in db.receipts {
        var i :| 0 <= i < |books[k.app].log| && EntryKey(k.app, books[k.app].log[i]) == k;
        assert after[k.app].log[i] == books[k.app].log[i];
      } else {
        assert EntryKey(k.app, after[k.app].log[n]) == k;
      }
    }
  }
}
