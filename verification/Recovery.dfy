/**
 Recovery does its work: an uncertain attempt that did commit is accepted as soon as one recovery gets
 through, and there are runs in which attempts end either way.
 */
module Recovery {
  import opened Wrappers
  import opened Sorting
  import opened AppSpec
  import opened Decimals
  import opened Records
  import opened Authority
  import opened Commands
  import opened CommandProofs
  import opened Database
  import opened Journal
  import opened JournalRuns
  import opened StoreRuns
  import opened HostApi
  import opened Client
  import opened Protocol
  import opened ProtocolProofs
  import opened Scenario

  // ------------------------------------------------------------ recovery accepts

  /** The receipt that recovery of `b` shows. */
  function RecoveredDto(host: Host, b: Body): ReceiptDto {
    ReceiptDto(host.scope.app, host.release, b.key, b.command, b.record, b.expected + 1, true)
  }

  /** One recovery that gets through: sent, served under the authority that committed, and answered. */
  ghost function Recovered(host: Host, s: System, call: Call, c: Circumstance): System {
    Step(host, Step(host, Step(host, s, Happening.Again(call, true)), Serve(s.next, c)), Arrive(s.next))
  }

  /** The entry that an issued body committed as. */
  lemma IssuedEntry(host: Host, s: System, key: string, i: nat)
    requires Inv(host, s) && key in s.issued && i < |LogOf(host, s)| && LogOf(host, s)[i].request.key == key
    ensures host.scope.app in s.books && LogOf(host, s) == s.books[host.scope.app].log
    ensures LogOf(host, s)[i].request == RequestOf(s.issued[key]) && LogOf(host, s)[i].expected == s.issued[key].expected == i + 1
    ensures s.issued[key].release == host.release && s.issued[key].key == key
  {
    hide Serving, NetOk, TasksOk, ClientOk, CurrentOk, CertainOk, DroppedOk, AcceptedOk, LedgerOk;
    ServingLog(host, s);
    ExpectedIsPlace(host, s.db, s.books, i);
  }

  /** What the host answers when the committing authority asks for the receipt of entry `i`. */
  lemma ReceiptServed(host: Host, s: System, b: Body, call: Call, c: Circumstance, i: nat)
    requires Inv(host, s) && IsIssued(s.issued, b)
    requires i < |LogOf(host, s)| && LogOf(host, s)[i].request.key == b.key
    requires call.scope == host.scope && c.intake.None? && Resolve(call, Write, c.gate).Ok? && c.encodes
    requires SameAuthority(host.cfg, host.scope.app, call, c.readings, LogOf(host, s)[i].context)
    requires ReceiptBytes(RecoveredDto(host, b)) <= MAX_WIRE_BYTES
    ensures HostReceipt(host, s.db, call, b.key, c) == Ok(RecoveredDto(host, b))
  {
    hide Inv, Journalled, Committed, FactsAfter, ReceiptBytes, Resolve, ReadReceipt, SameAuthority, ValidKey, Execute, PreparedOf, Bound;
    IssuedEntry(host, s, b.key, i);
    InvParts(host, s);
    var app := host.scope.app;
    var book := s.books[app];
    var e := book.log[i];
    RetryReplays(host.cfg, s.db, s.books, app, i, call, c.readings, None, Acked);
    StoredRow(host.cfg, s.db, s.books, app, i);
    CommittedPrepared(host.cfg, app, book, i);
    BoundKey(book.spec, PreparedOf(book.spec, e).value);
    BoundFound(book.spec, PreparedOf(book.spec, e).value);
  }

  /**
   Recovery settles what did commit: from any reachable state at rest with an uncertain attempt whose
   request is in the log, one recovery without loss, under the authority it committed under, shows its
   receipt, releases the attempt and records it as accepted.
   */
  lemma RecoveryAccepts(host: Host, s: System, call: Call, c: Circumstance, i: nat)
    requires Inv(host, s) && !s.client.busy && s.client.attempt.Some?
    requires i < |LogOf(host, s)| && LogOf(host, s)[i].request.key == s.client.attempt.value.body.key
    requires call.scope == host.scope && c.intake.None? && Resolve(call, Write, c.gate).Ok? && c.encodes
    requires SameAuthority(host.cfg, host.scope.app, call, c.readings, LogOf(host, s)[i].context)
    requires ReceiptBytes(RecoveredDto(host, s.client.attempt.value.body)) <= MAX_WIRE_BYTES
    ensures var b := s.client.attempt.value.body;
            var after := Recovered(host, s, call, c);
            && b.key in after.accepted && after.client.attempt.None?
            && after.client.receipt == Some(RecoveredDto(host, b))
            && after.db == s.db && after.books == s.books
  {
    hide Inv, HostReceipt, HostCommand, Act, Record, Resolve, SameAuthority, ReceiptBytes, LogOf, Serving;
    InvParts(host, s);
    var b := s.client.attempt.value.body;
    assert IsIssued(s.issued, b);
    ReceiptServed(host, s, b, call, c, i);
    IssuedKey(host, s, b, i);
    RecoverySteps(host, s, call, c, RecoveredDto(host, b));
  }

  lemma IssuedKey(host: Host, s: System, b: Body, i: nat)
    requires Inv(host, s) && IsIssued(s.issued, b) && i < |LogOf(host, s)| && LogOf(host, s)[i].request.key == b.key
    ensures b.release == host.release
  {
    IssuedEntry(host, s, b.key, i);
  }

  lemma RecoverySteps(host: Host, s: System, call: Call, c: Circumstance, r: ReceiptDto)
    requires !s.client.busy && s.client.attempt.Some? && call.scope == host.scope
    requires HostReceipt(host, s.db, call, s.client.attempt.value.body.key, c) == Ok(r)
    requires ReceiptMatches(host.scope.app, r, s.client.attempt.value)
    ensures var after := Recovered(host, s, call, c);
            && s.client.attempt.value.body.key in after.accepted && after.client.attempt.None?
            && after.client.receipt == Some(r) && after.db == s.db && after.books == s.books
  {
    hide HostReceipt, HostCommand, Act, Record, ReceiptMatches;
    var a := s.client.attempt.value;
    var sent := Step(host, s, Happening.Again(call, true));
    assert sent.net[s.next] == Get(call, a.body.key) && sent.tasks[s.next] == Dispatching(a, true, s.client.generation);
    var served := Step(host, sent, Serve(s.next, c));
    assert served.net[s.next] == Reply(Answered(r));
    assert served.tasks == sent.tasks && served.client == sent.client;
  }

  // ------------------------------------------------------------ two runs

  const FRONT := Host(DESK, HERE, Digest(Desk()))

  function OpenBooks(): Books {
    map[0 := Book(Desk(), [Ticket("o", Blank)], [])]
  }

  function Window(): System {
    System(ClientState(None, false, 0, None, NOTHING_SHOWN), map[], map[], 0, OpenDesk(), OpenBooks(), map[], {}, {}, {})
  }

  lemma DeskJournalled()
    ensures Journalled(DESK, OpenDesk(), OpenBooks())
  {
    hide Checked, Act, Journalled, CheckedRecords, Canonical;
    DeskChecked();
    DeskOpens();
    TicketValid("o", Blank);
    CheckedFixed(Desk(), HERE, [Ticket("o", Blank)]);
    var actions := [Opening()];
    assert Admissible(Opening());
    RunJournalled(DESK, actions, 1);
    assert DbAt(DESK, actions, 0) == EMPTY && BooksAt(DESK, actions, 0) == map[];
    assert DbAt(DESK, actions, 1) == OpenDesk();
    CanonicalTicket();
    assert BooksAt(DESK, actions, 1) == OpenBooks();
  }

  lemma CanonicalTicket()
    ensures Canonical(Desk(), [Ticket("o", Blank)]) == [Ticket("o", Blank)]
  {
    hide CheckedRecords, ValidRows, Canonical;
    TicketValid("o", Blank);
    CheckedFixed(Desk(), HERE, [Ticket("o", Blank)]);
  }

  /** A window just opened in front of the desk. */
  lemma WindowOpens()
    ensures Initial(FRONT, Window())
  {
    hide Journalled;
    DeskJournalled();
  }

  function Shown(): View {
    View(Some(Digest(Desk())), {(1, 1)}, Some(1), {1})
  }

  /** The window connects, shows the ticket, and submits its closing; then the host serves it under `c` and the answer arrives. */
  function FirstSteps(c: Circumstance): seq<Happening> {
    [Happening.Connect, FinishLoad(0, Shown(), false), Issue(Hello(), 1, 1, "k", map[NOTE := Text("x")]), Serve(1, c), Arrive(1)]
  }

  function ClosingBody(): Body {
    Body(1, 1, "k", map[NOTE := Text("x")], 1, Digest(Desk()))
  }

  /** The submission is under way. */
  predicate Submitting(s: System) {
    && s.client == ClientState(Some(Attempt(ClosingBody(), false)), true, 1, None, Shown())
    && s.tasks == map[1 := Dispatching(Attempt(ClosingBody(), false), false, 1)]
    && s.net == map[1 := Post(Hello(), ClosingBody())] && s.next == 2
    && s.db == OpenDesk() && s.books == OpenBooks()
    && s.issued == map["k" := ClosingBody()] && s.dropped == {} && s.accepted == {} && s.foreign == {}
  }

  lemma WindowSubmits()
    ensures Submitting(Step(FRONT, Step(FRONT, Step(FRONT, Window(), Happening.Connect), FinishLoad(0, Shown(), false)),
                            Issue(Hello(), 1, 1, "k", map[NOTE := Text("x")])))
  {
    var connecting := Step(FRONT, Window(), Happening.Connect);
    assert connecting.tasks == map[0 := Loading(1)];
    var ready := Step(FRONT, connecting, FinishLoad(0, Shown(), false));
    assert ready.tasks == map[] && ready.net == map[] && ready.next == 1;
    assert CanSubmit(ready.client, 1, 1);
    var s := Step(FRONT, ready, Issue(Hello(), 1, 1, "k", map[NOTE := Text("x")]));
    assert s.tasks == map[1 := Dispatching(Attempt(ClosingBody(), false), false, 1)];
    assert s.net == map[1 := Post(Hello(), ClosingBody())];
    assert s.issued == map["k" := ClosingBody()];
  }

  lemma FiveSteps(c: Circumstance)
    ensures var events := FirstSteps(c);
            StateAt(FRONT, Window(), events, 5)
            == Step(FRONT, Step(FRONT, Step(FRONT, Step(FRONT, Step(FRONT, Window(), events[0]), events[1]), events[2]), events[3]), events[4])
  {
    hide Step;
    var events := FirstSteps(c);
    assert StateAt(FRONT, Window(), events, 0) == Window();
    assert StateAt(FRONT, Window(), events, 1) == Step(FRONT, Window(), events[0]);
    assert StateAt(FRONT, Window(), events, 2) == Step(FRONT, StateAt(FRONT, Window(), events, 1), events[1]);
    assert StateAt(FRONT, Window(), events, 3) == Step(FRONT, StateAt(FRONT, Window(), events, 2), events[2]);
    assert StateAt(FRONT, Window(), events, 4) == Step(FRONT, StateAt(FRONT, Window(), events, 3), events[3]);
  }

  /** The host turns the caller away at the door. */
  function Closed(): Circumstance {
    Circumstance(None, Err(Revoked), Trusted(), None, Acked, true)
  }

  /** The commit happens and its acknowledgement is lost. */
  function Cut(): Circumstance {
    Circumstance(None, Reader(), Trusted(), None, Unacked(true), true)
  }

  /** Everything works. */
  function Fair(): Circumstance {
    Circumstance(None, Reader(), Trusted(), None, Acked, true)
  }

  lemma DeniedAtTheDoor(s: System)
    requires Submitting(s)
    ensures var after := Step(FRONT, Step(FRONT, s, Serve(1, Closed())), Arrive(1));
            "k" in after.dropped && after.client.attempt.None?
  {
    hide Execute, Act, Record;
    assert HostCommand(FRONT, s.db, Hello(), ClosingBody(), Closed()) == (s.db, Err(ApiDenied));
  }

  /** A run that ends in a dropped attempt. */
  lemma DroppedRun()
    ensures Initial(FRONT, Window()) && "k" in StateAt(FRONT, Window(), FirstSteps(Closed()), 5).dropped
  {
    hide Initial, Step, Submitting;
    WindowOpens();
    WindowSubmits();
    FiveSteps(Closed());
    DeniedAtTheDoor(Step(FRONT, Step(FRONT, Step(FRONT, Window(), Happening.Connect), FinishLoad(0, Shown(), false)),
                         Issue(Hello(), 1, 1, "k", map[NOTE := Text("x")])));
  }

  lemma LostAcknowledgement()
    ensures HostCommand(FRONT, OpenDesk(), Hello(), ClosingBody(), Cut()) == (ClosedDesk(), Err(ApiInternal))
    ensures Record(DESK, OpenDesk(), OpenBooks(), HostApi.Submission(Hello(), ClosingBody(), Cut()))
            == map[0 := Book(Desk(), [Ticket("o", Blank)], [Entry(Caller(), 0, 1, Closing())])]
    ensures ClosedDesk() != OpenDesk()
  {
    hide Act, Resolve, Execute, ClosedDesk, ReceiptBytes;
    ClosingPrepared();
    DeskCloses(Unacked(true));
    var a := HostApi.Submission(Hello(), ClosingBody(), Cut());
    assert a == Scenario.Submission(Unacked(true));
    ClosedDiffers();
    SubmitActs();
    CutAnswers(Hello(), Trusted(), 1, Closing());
    assert EntryOf(DESK, a) == Some(Entry(Caller(), 0, 1, Closing()));
    assert Grown(OpenBooks()[0], Entry(Caller(), 0, 1, Closing())).log == [Entry(Caller(), 0, 1, Closing())];
    assert Record(DESK, OpenDesk(), OpenBooks(), a) == OpenBooks()[0 := Grown(OpenBooks()[0], Entry(Caller(), 0, 1, Closing()))];
  }

  lemma SubmitActs()
    ensures Act(DESK, OpenDesk(), Scenario.Submission(Unacked(true)))
            == Execute(DESK, OpenDesk(), Hello(), Trusted(), 1, Closing(), None, Unacked(true)).0
  {
    hide Execute;
  }

  lemma ClosedDiffers()
    ensures ClosedDesk() != OpenDesk()
  {
    assert ClosedDesk().applications[0].revision == 2;
  }

  /** A commit without its acknowledgement is reported as a storage failure. */
  lemma CutAnswers(call: Call, readings: Readings, expected: nat, q: Request)
    requires Execute(DESK, OpenDesk(), call, readings, expected, q, None, Unacked(true)).0 != OpenDesk()
    ensures Execute(DESK, OpenDesk(), call, readings, expected, q, None, Unacked(true)).1 == Err(Storage)
  {
    hide ExecuteIn;
  }

  /** The attempt is uncertain, and its request is in the log. */
  predicate Unsure(s: System) {
    && !s.client.busy && s.client.attempt == Some(Attempt(ClosingBody(), true))
    && s.books == map[0 := Book(Desk(), [Ticket("o", Blank)], [Entry(Caller(), 0, 1, Closing())])]
  }

  function Unanswered(): Books {
    map[0 := Book(Desk(), [Ticket("o", Blank)], [Entry(Caller(), 0, 1, Closing())])]
  }

  lemma CutServed(s: System)
    requires Submitting(s)
    ensures var served := Step(FRONT, s, Serve(1, Cut()));
            && served.net == map[1 := Reply(Refused(ApiInternal))] && served.tasks == s.tasks && served.client == s.client
            && served.books == Unanswered()
  {
    hide HostCommand, Act, Record, ClosedDesk, OpenDesk;
    LostAcknowledgement();
  }

  lemma CutOff(s: System)
    requires Submitting(s)
    ensures Unsure(Step(FRONT, Step(FRONT, s, Serve(1, Cut())), Arrive(1)))
  {
    hide Served, ClosedDesk, OpenDesk, Desk;
    CutServed(s);
    InternalArrives(Step(FRONT, s, Serve(1, Cut())));
  }

  lemma InternalArrives(s: System)
    requires s.net == map[1 := Reply(Refused(ApiInternal))]
    requires s.tasks == map[1 := Dispatching(Attempt(ClosingBody(), false), false, 1)] && s.client.generation == 1
    ensures var n := Step(FRONT, s, Arrive(1));
            !n.client.busy && n.client.attempt == Some(Attempt(ClosingBody(), true)) && n.books == s.books
  {
    hide ClosingBody;
  }

  lemma SmallReceipt()
    ensures ReceiptBytes(RecoveredDto(FRONT, ClosingBody())) <= MAX_WIRE_BYTES
  {
    SmallId(0);
    SmallId(1);
  }

  /** A run that loses an acknowledgement, recovers, and ends in an accepted attempt. */
  lemma AcceptedRun()
    ensures Initial(FRONT, Window())
    ensures var events := FirstSteps(Cut()) + [Happening.Again(Hello(), true), Serve(2, Fair()), Arrive(2)];
            "k" in StateAt(FRONT, Window(), events, 8).accepted
  {
    hide Initial, Step, Submitting, Unsure, Resolve, Inv, ReceiptBytes;
    WindowOpens();
    WindowSubmits();
    FiveSteps(Cut());
    CutOff(Step(FRONT, Step(FRONT, Step(FRONT, Window(), Happening.Connect), FinishLoad(0, Shown(), false)),
                Issue(Hello(), 1, 1, "k", map[NOTE := Text("x")])));
    var events := FirstSteps(Cut()) + [Happening.Again(Hello(), true), Serve(2, Fair()), Arrive(2)];
    SamePrefix(FirstSteps(Cut()), events, 5);
    var s := StateAt(FRONT, Window(), events, 5);
    RunInv(FRONT, Window(), events, 5);
    UnsureRecovers(s);
    assert StateAt(FRONT, Window(), events, 6) == Step(FRONT, s, events[5]);
    assert StateAt(FRONT, Window(), events, 7) == Step(FRONT, StateAt(FRONT, Window(), events, 6), events[6]);
    assert StateAt(FRONT, Window(), events, 8) == Step(FRONT, StateAt(FRONT, Window(), events, 7), events[7]);
    NextIsTwo(Cut());
  }

  lemma {:induction false} SamePrefix(a: seq<Happening>, b: seq<Happening>, n: nat)
    requires a <= b && n <= |a|
    ensures StateAt(FRONT, Window(), a, n) == StateAt(FRONT, Window(), b, n)
  {
    hide Step;
    if n > 0 {
      SamePrefix(a, b, n - 1);
      assert a[n - 1] == b[n - 1];
    }
  }

  lemma NextIsTwo(c: Circumstance)
    ensures StateAt(FRONT, Window(), FirstSteps(c), 5).next == 2
  {
    hide HostCommand, HostReceipt, Record;
    FiveSteps(c);
    WindowSubmits();
  }

  lemma UnsureRecovers(s: System)
    requires Inv(FRONT, s) && Unsure(s)
    ensures "k" in Recovered(FRONT, s, Hello(), Fair()).accepted
  {
    hide Inv, Resolve, Recovered, ReceiptBytes;
    ClosingPrepared();
    SmallReceipt();
    assert LogOf(FRONT, s) == [Entry(Caller(), 0, 1, Closing())];
    RecoveryAccepts(FRONT, s, Hello(), Fair(), 0);
  }
}
