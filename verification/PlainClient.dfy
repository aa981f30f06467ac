/**
 The client in plain terms: what its form makes of the texts typed in, when a command can be sent,
 which answers end an attempt, and which store answers leave an outcome open.
 */
module PlainClient {
  import opened Wrappers
  import opened Sorting
  import opened AppSpec
  import opened Decimals
  import opened Records
  import opened Cells
  import opened Wire
  import opened Params
  import opened Authority
  import opened Commands
  import opened Database
  import opened Journal
  import opened JournalRuns
  import opened HostApi
  import opened Client
  import opened PlainCells

  // ------------------------------------------------------------ the form

  /** A numeral, or a plus sign and a numeral without a sign, for a number of 64 bits. */
  ghost predicate Signed(text: string, n: int) {
    && -0x8000_0000_0000_0000 <= n && n <= 0x7fff_ffff_ffff_ffff
    && (Numeral(text, n) || (n >= 0 && exists k: nat :: text == "+" + Zeros(k) + Digits(n)))
  }

  lemma SignedReads(text: string, n: int)
    requires Signed(text, n)
    ensures ParseSigned(text) == Some(n)
  {
    hide ParseInteger, DigitsValue, Digits, Zeros;
    if Numeral(text, n) {
      NumeralReads(text, n);
      SignedAgrees(text);
    } else {
      var k: nat :| text == "+" + Zeros(k) + Digits(n);
      ZerosRead(k, n);
      assert text == "+" + (Zeros(k) + Digits(n));
      assert text[1..] == Zeros(k) + Digits(n);
    }
  }

  lemma ReadsSigned(text: string)
    ensures ParseSigned(text).Some? ==> Signed(text, ParseSigned(text).value)
  {
    hide ParseInteger, DigitsValue, Digits, Zeros;
    if ParseSigned(text).Some? {
      SignedAgrees(text);
      if text[0] == '+' {
        var digits := text[1..];
        var k := DigitsSplit(digits);
        assert text == "+" + digits;
        assert text == "+" + Zeros(k) + Digits(DigitsValue(digits));
      } else {
        IntegerExactly(text);
      }
    }
  }

  lemma RecordIdExactly(text: string, id: RecordId)
    ensures ParseRecordId(text) == Some(id) <==> text == "rec_" + Decimal(id)
  {
    hide CanonicalDecimal, Digits, DigitsValue;
    if text == "rec_" + Decimal(id) {
      RecordIdRead(id);
    }
    if ParseRecordId(text) == Some(id) {
      var rest := text[4..];
      assert text == "rec_" + rest;
      if CanonicalDecimal(rest) {
        CanonicalDigits(rest);
      } else {
        CanonicalDigits(rest[1..]);
        assert rest == "-" + rest[1..];
      }
    }
  }

  /** What a text typed into a field of this type stands for, in scope `scope`. */
  ghost predicate StandsFor(t: FieldType, text: string, scope: Scope, v: Value) {
    if text == "" then v == Blank
    else if text == "null" then v == Null
    else
      match t
      case TextType => v == Text(if "text:" <= text then text[5..] else text)
      case IntegerType => v.Integer? && Signed(text, v.integer)
      case MoneyType => v.Money? && Signed(text, v.money)
      case BoolType => (text == "true" && v == Bool(true)) || (text == "false" && v == Bool(false))
      case RefType(target) => exists id :: text == "rec_" + Decimal(id) && v == Ref(RecordRef(scope, target, id))
  }

  lemma ParamExactly(t: FieldType, text: string, scope: Scope, v: Value)
    ensures StandsFor(t, text, scope, v) <==> ParseParam(t, text).Some? && ToDomain(ParseParam(t, text).value, scope) == v
  {
    hide ParseSigned, ParseRecordId, Signed, Decimal;
    ReadsSigned(text);
    match t
    case TextType =>
    case BoolType =>
    case IntegerType =>
      if v.Integer? && Signed(text, v.integer) {
        SignedReads(text, v.integer);
      }
    case MoneyType =>
      if v.Money? && Signed(text, v.money) {
        SignedReads(text, v.money);
      }
    case RefType(target) =>
      if ParseRecordId(text).Some? {
        RecordIdExactly(text, ParseRecordId(text).value);
      }
      if id :| text == "rec_" + Decimal(id) && v == Ref(RecordRef(scope, target, id)) {
        RecordIdExactly(text, id);
      }
  }

  /** Every text given stands for something, and a required field is given one that is neither empty nor null. */
  ghost predicate FormReads(fields: seq<InputField>, buffers: map<FieldId, string>, scope: Scope) {
    forall f :: f in fields ==>
      && (f.required ==> f.field in buffers && buffers[f.field] != "" && buffers[f.field] != "null")
      && (f.field in buffers ==> exists v :: StandsFor(f.fieldType, buffers[f.field], scope, v))
  }

  lemma GivenMeans(f: InputField, buffers: map<FieldId, string>, scope: Scope)
    ensures InputGiven(f, buffers) <==>
              && (f.required ==> f.field in buffers && buffers[f.field] != "" && buffers[f.field] != "null")
              && (f.field in buffers ==> exists v :: StandsFor(f.fieldType, buffers[f.field], scope, v))
  {
    hide ParseParam, StandsFor;
    if f.field in buffers {
      var text := buffers[f.field];
      EmptyMeans(f.fieldType, text);
      if ParseParam(f.fieldType, text).Some? {
        ParamExactly(f.fieldType, text, scope, ToDomain(ParseParam(f.fieldType, text).value, scope));
      }
      if v :| StandsFor(f.fieldType, text, scope, v) {
        ParamExactly(f.fieldType, text, scope, v);
      }
    }
  }

  lemma EmptyMeans(t: FieldType, text: string)
    ensures ParseParam(t, text).Some? ==> (Empty(ParseParam(t, text).value) <==> text == "" || text == "null")
  {
  }

  ghost predicate DistinctInputs(fields: seq<InputField>) {
    forall i, j :: 0 <= i < j < |fields| ==> fields[i].field != fields[j].field
  }

  /** The form yields parameters exactly when it reads; they are one value for each field that was given, the one its text stands for. */
  lemma FormExactly(fields: seq<InputField>, buffers: map<FieldId, string>, scope: Scope)
    requires DistinctInputs(fields)
    ensures InputsGiven(fields, buffers) <==> FormReads(fields, buffers, scope)
    ensures InputsGiven(fields, buffers) ==>
              var p := Collected(fields, buffers, scope);
              && (forall f :: f in fields && f.field in buffers ==>
                    f.field in p && StandsFor(f.fieldType, buffers[f.field], scope, p[f.field]))
              && (forall k :: k in p ==> k in buffers && exists f :: f in fields && f.field == k)
  {
    hide InputGiven, StandsFor;
    forall i | 0 <= i < |fields|
      ensures InputGiven(fields[i], buffers) <==>
                && (fields[i].required ==> fields[i].field in buffers && buffers[fields[i].field] != "" && buffers[fields[i].field] != "null")
                && (fields[i].field in buffers ==> exists v :: StandsFor(fields[i].fieldType, buffers[fields[i].field], scope, v))
    {
      GivenMeans(fields[i], buffers, scope);
    }
    if FormReads(fields, buffers, scope) {
      forall i | 0 <= i < |fields|
        ensures InputGiven(fields[i], buffers)
      {
        assert fields[i] in fields;
      }
    }
    if InputsGiven(fields, buffers) {
      CollectedMeans(fields, buffers, scope);
    }
  }

  lemma {:induction false} CollectedMeans(fields: seq<InputField>, buffers: map<FieldId, string>, scope: Scope)
    requires DistinctInputs(fields) && InputsGiven(fields, buffers)
    ensures var p := Collected(fields, buffers, scope);
            && (forall i :: 0 <= i < |fields| && fields[i].field in buffers ==>
                  fields[i].field in p && StandsFor(fields[i].fieldType, buffers[fields[i].field], scope, p[fields[i].field]))
            && (forall k :: k in p ==> k in buffers && exists f :: f in fields && f.field == k)
  {
    hide StandsFor, ParseParam, ToDomain;
    if fields != [] {
      var n := |fields| - 1;
      var front, f := fields[..n], fields[n];
      assert forall i :: 0 <= i < n ==> front[i] == fields[i];
      CollectedMeans(front, buffers, scope);
      var p := Collected(fields, buffers, scope);
      if f.field in buffers {
        assert InputGiven(f, buffers);
        ParamExactly(f.fieldType, buffers[f.field], scope, ToDomain(ParseParam(f.fieldType, buffers[f.field]).value, scope));
      }
      forall i | 0 <= i < |fields| && fields[i].field in buffers
        ensures fields[i].field in p && StandsFor(fields[i].fieldType, buffers[fields[i].field], scope, p[fields[i].field])
      {
        if i < n {
          assert front[i] == fields[i];
          assert fields[i].field != f.field;
        }
      }
      forall k | k in p
        ensures k in buffers && exists g :: g in fields && g.field == k
      {
        if k == f.field {
          assert f in fields;
        } else {
          var g :| g in front && g.field == k;
          assert g in fields;
        }
      }
    }
  }

  // ------------------------------------------------------------ the attempt

  /** The receipt names the application and everything that the attempt asked for. */
  predicate Names(app: int, r: ReceiptDto, b: Body) {
    r.app == app && r.key == b.key && r.command == b.command && r.record == b.record && r.release == b.release
  }

  /** A current answer ends the attempt exactly when it is a receipt that names it, or a final refusal of a first send that nothing made uncertain. */
  lemma AttemptEnds(app: int, c: ClientState, t: Task, out: Outcome)
    requires t.Dispatching? && c.generation == t.generation && c.attempt.Some?
    ensures var next := Resolved(app, c, t, out).0;
            && (next.attempt.None? <==>
                  || (out.Answered? && Names(app, out.receipt, t.attempt.body))
                  || (out.Refused? && out.code != ApiInternal && !t.recover && !t.attempt.uncertain))
            && (out.Answered? && Names(app, out.receipt, t.attempt.body) ==> next.receipt == Some(out.receipt))
            && (!(out.Answered? && Names(app, out.receipt, t.attempt.body)) ==> next.receipt == c.receipt || next.receipt == None)
            && (next.attempt.Some? && next.attempt != c.attempt ==> next.attempt == Some(t.attempt.(uncertain := true)))
            && ((out.Garbled? || out.Unreached? || (out.Answered? && !Names(app, out.receipt, t.attempt.body)) || (out.Refused? && out.code == ApiInternal && !t.recover))
                ==> next.attempt == Some(t.attempt.(uncertain := true)))
  {
  }

  /** A command can be sent exactly when nothing is under way or retained, release and revision are on screen, the record is shown and the command is offered for it. */
  lemma SendableExactly(c: ClientState, command: int, record: RecordId)
    ensures CanSubmit(c, command, record) <==>
              && c.busy == false && c.attempt == None
              && (exists i :: c.view.release == Some(i)) && (exists n :: c.view.revision == Some(n))
              && record in c.view.records && (command, record) in c.view.offers
    ensures CanSubmit(c, command, record) ==>
              forall key, inputs :: var b := BodyOf(c, command, record, key, inputs);
                && b.command == command && b.record == record && b.key == key && b.inputs == inputs
                && c.view.revision == Some(b.expected) && c.view.release == Some(b.release)
  {
    if c.view.release.Some? {
      assert c.view.release == Some(c.view.release.value);
    }
    if c.view.revision.Some? {
      assert c.view.revision == Some(c.view.revision.value);
    }
  }

  // ------------------------------------------------------------ open answers

  /** Of a request that a live host passes on, the answer leaves the outcome open exactly when storage failed, revisions ran out or the receipt could not be sent. */
  lemma OpenExactly(host: Host, db: Db, books: Books, call: Call, b: Body, c: Circumstance)
    requires Serving(host, db, books) && call.scope == host.scope && b.release == host.release
    requires c.intake.None? && Live(call, Write, c.gate)
    ensures var r := Execute(host.cfg, db, call, c.readings, b.expected, RequestOf(b), c.fault, c.ack).1;
            var out := HostCommand(host, db, call, b, c).1;
            && (out == Err(ApiInternal) <==>
                  r == Err(Storage) || r == Err(RevisionOverflow) || (r.Ok? && (!c.encodes || ReceiptBytes(Sent(host, r.value)) > 1_048_576)))
            && (out.Ok? <==> r.Ok? && c.encodes && ReceiptBytes(Sent(host, r.value)) <= 1_048_576)
            && (out == Err(ApiConflict) <==> r == Err(Conflict) || r == Err(IntentConflict))
            && (out == Err(ApiDenied) <==>
                  || r == Err(BindingMismatch) || r == Err(AuthorityChanged) || r == Err(Rejected(Denied))
                  || exists e :: r == Err(AuthorityDenied(e)) || r == Err(Rejected(Unauthorized(e))))
  {
    hide Journalled, Execute, Resolve, FactsAfter, ReceiptBytes;
    ResolvedMeans(call, Write, c.gate);
    ExecuteJournalled(host.cfg, db, books, call, c.readings, b.expected, RequestOf(b), c.fault, c.ack);
    ExecuteAnswers(host.cfg, db, books, call, c.readings, b.expected, RequestOf(b), c.fault, c.ack);
    ExecuteErrors(host.cfg, db, books, call, c.readings, b.expected, RequestOf(b), c.fault, c.ack);
  }

  function Sent(host: Host, r: Receipt): ReceiptDto {
    ReceiptDto(host.scope.app, r.identity, r.key, r.command, r.record, r.revision, r.replayed)
  }

  /** Errors that an execution on a served application never answers with. */
  lemma ExecuteErrors(cfg: Config, db: Db, books: Books, call: Call, readings: Readings, expected: nat, q: Request, fault: Option<Stage>, ack: Ack)
    requires Journalled(cfg, db, books) && call.scope.app in books && call.scope.tenant == cfg.tenant
    ensures var r := Execute(cfg, db, call, readings, expected, q, fault, ack).1;
            && r != Err(ScopeMismatch) && r != Err(AppNotFound) && r != Err(AppAlreadyExists) && r != Err(InvalidReceiptKey)
            && r != Err(InvalidFinalFacts) && r != Err(CorruptSnapshot) && r != Err(Rejected(OutOfScope))
  {
    hide Journalled, Prepare, Decide, Validate, Revalidated, Written, Collides, Replay, Load, FactsAfter, Resolve;
    LoadJournalled(cfg, db, books, call.scope);
    AuthorisedErrors(cfg, call, readings.entry);
    BookHead(cfg, db, books, call.scope.app);
    ExecuteJournalled(cfg, db, books, call, readings, expected, q, fault, ack);
    var book := books[call.scope.app];
    InScope(book.spec, FactsAfter(book, |book.log|), call, readings.prepare, q);
    DecisionInScope(book, call, readings, q);
    if Authorised(cfg, call, readings.entry).Ok? {
      var context := Authorised(cfg, call, readings.entry).value;
      RevalidatedMeans(cfg, call, readings.commit, context);
      ExecuteOnJournalled(cfg, db, books, call, readings, expected, q, fault, context);
      ReplayErrors(cfg, db, call, readings, expected, q, context, SnapshotAt(book, |book.log|));
    }
  }

  lemma InScope(spec: Spec, facts: seq<RawRecord>, call: Call, reading: Reading, q: Request)
    requires call.scope.app == spec.app
    ensures Prepare(spec, facts, call, reading, q) != Err(OutOfScope)
  {
    hide Resolve, Allows, ValidKey, RequestFits, IntentFits, InputsAccepted, FindCommand, FindMachine, FindPolicy, FindRow;
  }

  lemma DecisionInScope(book: Book, call: Call, readings: Readings, q: Request)
    ensures var p := Prepare(book.spec, FactsAfter(book, |book.log|), call, readings.prepare, q);
            p.Ok? ==> Decide(book.spec, call.scope, FactsAfter(book, |book.log|), p.value) != Err(OutOfScope)
  {
    hide Prepare, FactsAfter, Validate, TransitionOpen, GuardsHold, Allows, FindRow;
  }

  lemma ReplayErrors(cfg: Config, db: Db, call: Call, readings: Readings, expected: nat, q: Request, context: Context, snapshot: Snapshot)
    ensures forall row :: var r := Replay(cfg, row, call, readings, expected, q, context, snapshot);
              && r != Err(ScopeMismatch) && r != Err(AppNotFound) && r != Err(AppAlreadyExists) && r != Err(InvalidReceiptKey) && r != Err(Rejected(OutOfScope))
  {
    hide ReceiptFitsRequest, Revalidated;
    RevalidatedMeans(cfg, call, readings.commit, context);
  }
}
