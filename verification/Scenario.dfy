/**
 One application with one command, small enough to follow by hand: it is bootstrapped, its only
 record moves from open to closed, and the guarantees about reachable databases speak about
 something that happens.
 */
module Scenario {
  import opened Wrappers
  import opened Sorting
  import opened AppSpec
  import opened Decimals
  import opened Records
  import opened Authority
  import opened Commands
  import opened CommandProofs
  import opened Database
  import opened Journal
  import opened JournalRuns
  import opened StoreRuns

  const TICKETS := 1
  const STATE := 1
  const OWNER := 2
  const NOTE := 3

  function Fields(): seq<Field> {
    [Field(STATE, true, TextType), Field(OWNER, false, TextType), Field(NOTE, false, TextType)]
  }

  function OwnerPolicy(): Policy {
    Policy(1, 1, TICKETS, OWNER, {NOTE}, {}, {}, {})
  }

  function Lifecycle(): StateMachine {
    StateMachine(1, TICKETS, STATE, {"o", "c"}, {"c"})
  }

  /** Closing a ticket may leave a note, and publishes it. */
  function Close(): Command {
    Command(1, 1, 1, 1, "o", "c", [CommandInput(NOTE, false, [])], [], [EventIntent(1, {NOTE})])
  }

  function Desk(): Spec {
    Spec(2, 0, [Table(TICKETS, Fields())], [], [OwnerPolicy()], [], [Lifecycle()], [Close()])
  }

  const HERE := Scope(0, 0)

  function Ticket(state: string, note: Value): RawRecord {
    RawRecord(HERE, 1, TICKETS, map[STATE := Text(state), OWNER := Text("a"), NOTE := note])
  }

  function Closing(): Request {
    Request(1, 1, "k", map[NOTE := Text("x")])
  }

  lemma DeskFields()
    ensures FindTable(Desk().tables, TICKETS) == Some(Desk().tables[0])
    ensures FieldOf(Desk(), TICKETS, STATE) == Some(Field(STATE, true, TextType))
    ensures FieldOf(Desk(), TICKETS, OWNER) == Some(Field(OWNER, false, TextType))
    ensures FieldOf(Desk(), TICKETS, NOTE) == Some(Field(NOTE, false, TextType))
  {
    var f := Fields();
    assert FindField(f[1..], OWNER) == Some(f[1]);
    assert f[1..][1..] == [f[2]];
    assert FindField(f[1..], NOTE) == Some(f[2]);
  }

  lemma DeskTables()
    ensures TablesChecked(Desk())
  {
    var tables := Desk().tables;
    assert tables[1..] == [];
    assert FieldCount(tables) == 3;
    assert StrictlySorted(FieldKey, Fields());
    assert forall f :: f in Fields() ==> f.fieldType == TextType;
  }

  lemma DeskMachines()
    ensures MachinesChecked(Desk()) && PoliciesChecked(Desk())
  {
    hide MachineChecked, PolicyChecked;
    DeskMachine();
    DeskPolicy();
  }

  lemma DeskMachine()
    ensures MachineChecked(Desk(), Lifecycle())
  {
    hide FieldOf, FindTable;
    DeskFields();
    assert TextBytes("o") == 1 && TextBytes("c") == 1 by {
      assert "o"[1..] == "" && "c"[1..] == "";
    }
  }

  lemma DeskPolicy()
    ensures PolicyChecked(Desk(), OwnerPolicy())
  {
    hide FieldOf, FindTable;
    DeskFields();
  }

  lemma DeskCommand()
    ensures CommandChecked(Desk(), Close())
    ensures FindCommand(Desk().commands, 1) == Some(Close())
    ensures FindMachine(Desk().machines, 1) == Some(Lifecycle())
    ensures FindPolicy(Desk().policies, 1) == Some(OwnerPolicy())
  {
    hide FieldOf, FindTable;
    DeskFields();
    assert InputChecked(Desk(), Lifecycle(), OwnerPolicy(), CommandInput(NOTE, false, []));
    assert Close().inputs == [CommandInput(NOTE, false, [])];
    assert Close().events == [EventIntent(1, {NOTE})];
  }

  lemma DeskChecked()
    ensures Checked(Desk())
  {
    hide CommandChecked, TablesChecked, MachinesChecked, PoliciesChecked;
    DeskTables();
    DeskMachines();
    DeskCommand();
    assert StrictlySorted(CommandKey, Desk().commands);
  }

  // ------------------------------------------------------------ one record

  predicate Plain(state: string, note: Value) {
    (state == "o" || state == "c") && (note == Blank || note == Text("x"))
  }

  lemma TicketFieldsOk(state: string, note: Value)
    requires Plain(state, note)
    ensures forall f :: f in Fields() ==> FieldOk(Desk(), HERE, {Key(TICKETS, 1)}, TICKETS, f, Get(Ticket(state, note).values, f.id))
  {
    ShortText("a");
    ShortText("x");
    ShortText(state);
  }

  lemma ShortText(s: string)
    requires |s| == 1
    ensures TextBytes(s) <= 4
  {
    assert s[1..] == "";
  }

  lemma TicketNormal(state: string, note: Value)
    requires Plain(state, note)
    ensures forall f :: f in Ticket(state, note).values ==> KnownField(Fields(), f)
    ensures NormalValues(Fields(), Ticket(state, note).values) == Ticket(state, note).values
  {
    var f := Fields();
    var values := Ticket(state, note).values;
    assert KnownField(f, f[0].id) && KnownField(f, f[1].id) && KnownField(f, f[2].id);
    var n := NormalValues(f, values);
    assert f[0].id in n && f[1].id in n && f[2].id in n;
    assert n.Keys == values.Keys;
  }

  lemma TicketOk(state: string, note: Value)
    requires Plain(state, note)
    ensures RowOk(Desk(), HERE, {Key(TICKETS, 1)}, Ticket(state, note))
    ensures Normal(Desk(), Ticket(state, note)) == Ticket(state, note)
  {
    hide FieldOk, FindTable, KnownField, NormalValues, Get, FieldOf;
    DeskFields();
    TicketFieldsOk(state, note);
    TicketNormal(state, note);
    assert forall i :: 0 <= i < |Fields()| ==> Fields()[i] in Fields();
  }

  lemma TicketSize(state: string, note: Value)
    requires Plain(state, note)
    ensures Fits([Ticket(state, note)])
  {
    var r := Ticket(state, note);
    TicketBytes(state, note);
    assert [r][1..] == [];
    assert RowsBytes([]) == 2 && RowsNodes([]) == 1;
  }

  lemma SmallValue(v: Value)
    requires v == Blank || (v.Text? && |v.text| == 1)
    ensures ValueBytes(v) <= 100 && ValueNodes(v) <= 5
  {
    if v.Text? {
      assert v.text[1..] == "";
      assert JsonTextBytes(v.text) == EscapedBytes(v.text[0]);
    }
  }

  lemma TicketBytes(state: string, note: Value)
    requires Plain(state, note)
    ensures RecordBytes(Ticket(state, note)) <= 10_000 && RecordNodes(Ticket(state, note)) <= 1_000
  {
    hide ValueBytes, ValueNodes, IdBytes;
    var r := Ticket(state, note);
    var v := r.values;
    SmallId(0);
    SmallId(1);
    SmallId(2);
    SmallId(3);
    SmallValue(v[STATE]);
    SmallValue(v[OWNER]);
    SmallValue(v[NOTE]);
    assert v.Keys == {STATE, OWNER, NOTE};
    assert Smallest({STATE, OWNER, NOTE}) == STATE && {STATE, OWNER, NOTE} - {STATE} == {OWNER, NOTE};
    assert Smallest({OWNER, NOTE}) == OWNER && {OWNER, NOTE} - {OWNER} == {NOTE};
    assert Smallest({NOTE}) == NOTE && {NOTE} - {NOTE} == {};
    assert EntriesBytes({NOTE}, v) == IdBytes(NOTE) + 2 + ValueBytes(v[NOTE]);
    assert EntriesNodes({NOTE}, v) == 1 + ValueNodes(v[NOTE]);
    assert EntriesBytes({OWNER, NOTE}, v) == IdBytes(OWNER) + 2 + ValueBytes(v[OWNER]) + EntriesBytes({NOTE}, v);
    assert EntriesNodes({OWNER, NOTE}, v) == 1 + ValueNodes(v[OWNER]) + EntriesNodes({NOTE}, v);
  }

  lemma SmallId(id: nat)
    requires id < 10
    ensures IdBytes(id) == 7
  {
  }

  lemma TicketValid(state: string, note: Value)
    requires Plain(state, note)
    ensures CheckedRecords(Desk(), HERE, [Ticket(state, note)])
  {
    hide RowOk, Normal, Fits;
    var rows := [Ticket(state, note)];
    TicketOk(state, note);
    TicketSize(state, note);
    assert rows[..0] == [] && rows[..1] == rows;
    KeysOfStep(rows, 0);
    NoKeys();
    assert KeysOf(rows) == {Key(TICKETS, 1)};
    assert StrictlySorted(RecordKey, rows);
    SortFixed(RecordKey, rows);
    assert NormalRows(Desk(), rows) == rows;
  }

  // ------------------------------------------------------------ one commit

  function Caller(): Context {
    Context("a", HERE, {}, 1, "store:0")
  }

  const DESK := Config(0, "store:0")

  function Reader(): Reading {
    Ok(Access(0, Session("a", 1, false), Membership("a", HERE, true, 1, {Write}, {}), Binding(HERE, "store:0", {})))
  }

  function Hello(): Call {
    Call("secret", HERE, NativeBearer, 0)
  }

  function Trusted(): Readings {
    Readings(Reader(), Reader(), Reader())
  }

  function Ready(): Prepared {
    Prepared(Caller(), OwnerPolicy(), Close(), Lifecycle(), Closing())
  }

  lemma ClosingFits()
    ensures RequestFits(Closing()) && IntentFits(Desk(), Closing())
    ensures InputsAccepted(Desk(), Lifecycle(), Close(), Closing().inputs)
    ensures ValidKey(Closing().key)
  {
    hide FieldOf, FindTable;
    DeskFields();
    var v := Closing().inputs;
    SmallValue(v[NOTE]);
    ShortText("x");
    assert v.Keys == {NOTE} && Smallest({NOTE}) == NOTE && {NOTE} - {NOTE} == {};
    assert EntriesBytes({NOTE}, v) == IdBytes(NOTE) + 2 + ValueBytes(v[NOTE]);
    assert EntriesNodes({NOTE}, v) == 1 + ValueNodes(v[NOTE]);
    assert Desk().tables[1..] == [];
    assert FieldCount(Desk().tables) == 3;
    assert InputAccepted(Desk(), Lifecycle(), Close(), NOTE, v[NOTE]);
  }

  lemma TicketFound(state: string, note: Value)
    ensures FindRow([Ticket(state, note)], Key(TICKETS, 1)) == Some(Ticket(state, note))
    ensures Allows(OwnerPolicy(), Caller(), Ticket(state, note))
  {
  }

  lemma ClosingPrepared()
    ensures Resolve(Hello(), Write, Reader()) == Ok(Caller())
    ensures Prepare(Desk(), [Ticket("o", Blank)], Hello(), Reader(), Closing()) == Ok(Ready())
  {
    hide InputsAccepted, RequestFits, IntentFits, ValidKey, Allows, FindRow, FindCommand, FindMachine, FindPolicy;
    DeskCommand();
    ClosingFits();
    TicketFound("o", Blank);
  }

  lemma ClosingDecided()
    ensures var d := Decide(Desk(), HERE, [Ticket("o", Blank)], Ready());
            d.Ok? && d.value.row == Ticket("c", Text("x")) && d.value.facts == [Ticket("c", Text("x"))]
            && d.value.events == EventsOf(Close().events, Ticket("c", Text("x")))
  {
    hide Allows, CheckedRecords, ValidRows, Validate;
    var row := Ticket("o", Blank);
    TicketFound("o", Blank);
    TicketFound("c", Text("x"));
    TicketValid("c", Text("x"));
    CheckedFixed(Desk(), HERE, [Ticket("c", Text("x"))]);
    var next := Proposed(Ready(), row);
    assert next.values == Ticket("c", Text("x")).values;
    assert next == Ticket("c", Text("x"));
    assert ReplaceRow([row], next) == [next] + [row][1..] == [next];
  }

  function Opening(): Action {
    Provision(Desk(), HERE, [Ticket("o", Blank)], Acked)
  }

  function Submission(ack: Ack): Action {
    Action.Submit(Hello(), Trusted(), 1, Closing(), None, ack)
  }

  function OpenDesk(): Db {
    Db(map[(0, Digest(Desk())) := Desk()], map[0 := Application(Digest(Desk()), 1, [Ticket("o", Blank)])], map[], map[], map[])
  }

  lemma DeskOpens()
    ensures Act(DESK, EMPTY, Opening()) == OpenDesk()
    ensures Load(OpenDesk(), HERE) == Ok(Snapshot(Desk(), [Ticket("o", Blank)], 1, Digest(Desk())))
  {
    hide Checked, CheckedRecords, Validate;
    DeskChecked();
    TicketValid("o", Blank);
    CheckedFixed(Desk(), HERE, [Ticket("o", Blank)]);
  }

  function ClosedDesk(): Db {
    Written(OpenDesk(), Hello(), Snapshot(Desk(), [Ticket("o", Blank)], 1, Digest(Desk())), 1, Ready(),
            Decision(Ticket("c", Text("x")), [Ticket("c", Text("x"))], EventsOf(Close().events, Ticket("c", Text("x")))),
            [Ticket("c", Text("x"))])
  }

  lemma DeskCloses(ack: Ack)
    requires ack == Acked || ack == Unacked(true)
    ensures Act(DESK, OpenDesk(), Submission(ack)) == ClosedDesk()
  {
    hide Checked, CheckedRecords, Validate, Resolve, Prepare, Decide, Load, Written, ReplaceRow, NewReceipt;
    DeskOpens();
    ClosingPrepared();
    ClosingDecided();
    TicketValid("c", Text("x"));
    CheckedFixed(Desk(), HERE, [Ticket("c", Text("x"))]);
    TicketReplaced();
  }

  lemma TicketReplaced()
    ensures ReplaceRow([Ticket("o", Blank)], Ticket("c", Text("x"))) == [Ticket("c", Text("x"))]
  {
    var r := Ticket("o", Blank);
    assert [r][1..] == [];
  }

  /** A run that provisions the desk and closes its ticket commits, whether or not the answer arrives. */
  lemma TicketCloses(ack: Ack)
    requires ack == Acked || ack == Unacked(true)
    ensures var actions := [Opening(), Submission(ack)];
            && (forall i :: 0 <= i < |actions| ==> Admissible(actions[i]))
            && DbAt(DESK, actions, 2) != DbAt(DESK, actions, 1)
            && var db := DbAt(DESK, actions, 2);
               && HERE.app in db.applications
               && db.applications[HERE.app] == Application(Digest(Desk()), 2, [Ticket("c", Text("x"))])
               && ReceiptKey(0, "a", "k") in db.receipts
               && EventKey(0, 2, 0) in db.events
  {
    hide Checked, Act, DbAt;
    var actions := [Opening(), Submission(ack)];
    DeskChecked();
    DeskOpens();
    DeskCloses(ack);
    TwoSteps(actions);
  }

  lemma TwoSteps(actions: seq<Action>)
    requires |actions| == 2
    ensures DbAt(DESK, actions, 1) == Act(DESK, EMPTY, actions[0])
    ensures DbAt(DESK, actions, 2) == Act(DESK, Act(DESK, EMPTY, actions[0]), actions[1])
  {
    hide Act;
    assert DbAt(DESK, actions, 0) == EMPTY;
  }
}
