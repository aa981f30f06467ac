/**
 The authoring grid's text form of a value: what the grid prints, and what it reads back.
 */
module Cells {
  import opened Wrappers
  import opened Sorting
  import opened AppSpec
  import opened Decimals
  import opened Records

  datatype CellError =
    | WrongApp
    | UnknownField
    | TextLimit
    | RecordLimit
    | InvalidCell
    | Overflow
    | MissingReference
    | CrossScope
    | WrongReferenceTable
    | AmbiguousReference

  /** The text of a record identity. */
  function IdText(id: RecordId): string {
    "rec_" + Decimal(id)
  }

  // ------------------------------------------------------------ printing

  /** `value_input`. */
  function ValueInput(v: Option<Value>): string {
    match v
    case None => ""
    case Some(Blank) => ""
    case Some(Null) => "null"
    case Some(Text(s)) => if s == "" || s == "null" || "text:" <= s then "text:" + s else s
    case Some(Integer(n)) => Decimal(n)
    case Some(Money(n)) => Decimal(n)
    case Some(Bool(b)) => if b then "true" else "false"
    case Some(Ref(r)) => IdText(r.record)
  }

  // ------------------------------------------------------------ reading

  predicate IsDigit(c: char) {
    '0' <= c <= '9'
  }

  function DigitsValue(s: string): nat
    requires forall i :: 0 <= i < |s| ==> IsDigit(s[i])
  {
    if s == "" then 0
    else
      assert IsDigit(s[|s| - 1]);
      10 * DigitsValue(s[..|s| - 1]) + (s[|s| - 1] as int - '0' as int)
  }

  /** Decimal text with an optional minus sign, into the 64-bit range. */
  function ParseInteger(text: string): Result<i64, CellError> {
    if exists i :: 0 <= i < |text| && !(IsDigit(text[i]) || (i == 0 && text[i] == '-')) then Err(InvalidCell)
    else if text == "" || text == "-" then Err(InvalidCell)
    else
      var n := if text[0] == '-' then -(DigitsValue(text[1..]) as int) else DigitsValue(text);
      if InI64(n) then Ok(n) else Err(Overflow)
  }

  /** The text field that stands for a record: the first one called a name, or else the first one. */
  function DisplayField(fields: seq<Field>, isName: FieldId -> bool): Option<Field> {
    match FirstText(fields, isName)
    case Some(f) => Some(f)
    case None => FirstText(fields, _ => true)
  }

  function FirstText(fields: seq<Field>, wanted: FieldId -> bool): Option<Field> {
    if fields == [] then None
    else if fields[0].fieldType.TextType? && wanted(fields[0].id) then Some(fields[0])
    else FirstText(fields[1..], wanted)
  }

  /** The rows of `table` that the display field labels `text`. */
  function Labelled(records: seq<RawRecord>, scope: Scope, table: TableId, display: Option<Field>, text: string): seq<RawRecord> {
    if records == [] then []
    else
      var r := records[0];
      (if r.scope == scope && r.table == table && display.Some?
          && display.value.id in r.values && r.values[display.value.id] == Text(text) then [r] else [])
      + Labelled(records[1..], scope, table, display, text)
  }

  function ParseReference(spec: Spec, scope: Scope, target: TableId, text: string, records: seq<RawRecord>, isName: FieldId -> bool)
    : Result<Value, CellError>
  {
    if |records| > MAX_RECORDS then Err(RecordLimit)
    else if "rec_" <= text then
      match NamedRow(records, scope, target, text)
      case Some(r) => Ok(Ref(RecordRef(scope, target, r.id)))
      case None =>
        match FirstWithId(records, text)
        case Some(r) => if r.scope != scope then Err(CrossScope) else Err(WrongReferenceTable)
        case None => Err(MissingReference)
    else
      match FindTable(spec.tables, target)
      case None => Err(InvalidCell)
      case Some(table) =>
        var matches := Labelled(records, scope, target, DisplayField(table.fields, isName), text);
        if matches == [] then Err(InvalidCell)
        else if |matches| > 1 then Err(AmbiguousReference)
        else Ok(Ref(RecordRef(scope, target, matches[0].id)))
  }

  function NamedRow(records: seq<RawRecord>, scope: Scope, target: TableId, text: string): (r: Option<RawRecord>)
    ensures r.Some? ==> r.value in records && r.value.scope == scope && r.value.table == target && IdText(r.value.id) == text
    ensures r.None? ==> forall i :: 0 <= i < |records| && records[i].scope == scope && records[i].table == target
                                    ==> IdText(records[i].id) != text
  {
    if records == [] then None
    else if records[0].scope == scope && records[0].table == target && IdText(records[0].id) == text then Some(records[0])
    else NamedRow(records[1..], scope, target, text)
  }

  function FirstWithId(records: seq<RawRecord>, text: string): Option<RawRecord> {
    if records == [] then None
    else if IdText(records[0].id) == text then Some(records[0])
    else FirstWithId(records[1..], text)
  }

  /** `parse_cell`. */
  function ParseCell(spec: Spec, scope: Scope, table: TableId, field: FieldId, text: string, records: seq<RawRecord>,
                     isName: FieldId -> bool): Result<Value, CellError>
  {
    if scope.app != spec.app then Err(WrongApp)
    else
      match FieldOf(spec, table, field)
      case None => Err(UnknownField)
      case Some(definition) => ParseAs(spec, scope, definition.fieldType, text, records, isName)
  }

  function ParseAs(spec: Spec, scope: Scope, t: FieldType, text: string, records: seq<RawRecord>, isName: FieldId -> bool)
    : Result<Value, CellError>
  {
    if t.TextType? && "text:" <= text then
      if TextBytes(text[5..]) > MAX_TEXT_BYTES then Err(TextLimit) else Ok(Text(text[5..]))
    else if text == "" then Ok(Blank)
    else if text == "null" then Ok(Null)
    else
      match t
      case TextType => if TextBytes(text) > MAX_TEXT_BYTES then Err(TextLimit) else Ok(Text(text))
      case IntegerType =>
        (match ParseInteger(text) case Ok(n) => Ok(Integer(n)) case Err(e) => Err(e))
      case MoneyType =>
        (match ParseInteger(text) case Ok(n) => Ok(Money(n)) case Err(e) => Err(e))
      case BoolType => if text == "true" then Ok(Bool(true)) else if text == "false" then Ok(Bool(false)) else Err(InvalidCell)
      case RefType(target) => ParseReference(spec, scope, target, text, records, isName)
  }

  // ------------------------------------------------------------ numbers

  lemma {:induction false} DigitsRead(n: nat)
    ensures forall i :: 0 <= i < |Digits(n)| ==> IsDigit(Digits(n)[i])
    ensures DigitsValue(Digits(n)) == n
  {
    var s := Digits(n);
    if n < 10 {
      assert s[..0] == "";
    } else {
      DigitsRead(n / 10);
      assert s[..|s| - 1] == Digits(n / 10);
    }
  }

  /** A decimal text shows its sign first, and its digits give the number back. */
  lemma DecimalRead(n: int)
    ensures Decimal(n) != ""
    ensures Decimal(n)[0] == '-' <==> n < 0
    ensures n < 0 ==> Decimal(n)[1..] == Digits(-n) && DigitsValue(Digits(-n)) == -n
    ensures n >= 0 ==> Decimal(n) == Digits(n) && DigitsValue(Digits(n)) == n
    ensures forall i :: 0 <= i < |Decimal(n)| ==> IsDigit(Decimal(n)[i]) || (i == 0 && Decimal(n)[i] == '-')
  {
    if n < 0 {
      DigitsRead(-n);
    } else {
      DigitsRead(n);
      assert IsDigit(Decimal(n)[0]);
    }
  }

  /** Every 64-bit number, the extremes included, is read back from its own text. */
  lemma IntegerRead(n: i64)
    ensures ParseInteger(Decimal(n)) == Ok(n)
    ensures Decimal(n) != "null" && Decimal(n) != ""
  {
    DecimalRead(n);
    var s := Decimal(n);
    assert s != "null" by { assert "null"[0] == 'n'; }
  }

  /** Distinct numbers have distinct texts. */
  lemma DecimalInjective(a: int, b: int)
    requires Decimal(a) == Decimal(b)
    ensures a == b
  {
    hide Decimal, Digits, DigitsValue;
    DecimalRead(a);
    DecimalRead(b);
  }

  lemma IdTextInjective(a: RecordId, b: RecordId)
    requires IdText(a) == IdText(b)
    ensures a == b
  {
    assert IdText(a)[4..] == Decimal(a) && IdText(b)[4..] == Decimal(b);
    DecimalInjective(a, b);
  }

  // ------------------------------------------------------------ printing and reading undo each other

  /** A value that the field type admits among these records. */
  predicate Fitting(scope: Scope, records: seq<RawRecord>, t: FieldType, v: Value) {
    match v
    case Blank => true
    case Null => true
    case Text(s) => t.TextType? && TextBytes(s) <= MAX_TEXT_BYTES
    case Integer(_) => t.IntegerType?
    case Bool(_) => t.BoolType?
    case Money(_) => t.MoneyType?
    case Ref(r) =>
      t.RefType? && r.scope == scope && r.table == t.target
      && exists i :: 0 <= i < |records| && records[i].scope == scope && records[i].table == t.target && records[i].id == r.record
  }

  lemma PrintedReads(spec: Spec, scope: Scope, t: FieldType, v: Value, records: seq<RawRecord>, isName: FieldId -> bool)
    requires Fitting(scope, records, t, v) && |records| <= MAX_RECORDS
    ensures ParseAs(spec, scope, t, ValueInput(Some(v)), records, isName) == Ok(v)
  {
    match v {
      case Blank =>
      case Null =>
      case Text(s) => assert ("text:" + s)[5..] == s;
      case Integer(n) => IntegerRead(n);
      case Bool(_) =>
      case Money(n) => IntegerRead(n);
      case Ref(r) =>
        var text := IdText(r.record);
        assert "rec_" <= text && text[0] == 'r';
        var i :| 0 <= i < |records| && records[i].scope == scope && records[i].table == t.target && records[i].id == r.record;
        var found := NamedRow(records, scope, t.target, text);
        IdTextInjective(found.value.id, r.record);
    }
  }

  /** Every cell of checked facts is read back from its own printed text. */
  lemma CellRoundTrip(spec: Spec, scope: Scope, rows: seq<RawRecord>, r: RawRecord, field: FieldId, isName: FieldId -> bool)
    requires CheckedRecords(spec, scope, rows) && r in rows && FieldOf(spec, r.table, field).Some?
    ensures field in r.values
    ensures ParseCell(spec, scope, r.table, field, ValueInput(Some(r.values[field])), rows, isName) == Ok(r.values[field])
  {
    CheckedField(spec, scope, rows, r, field);
    var t := FieldOf(spec, r.table, field).value.fieldType;
    var v := r.values[field];
    if v.Ref? {
      var key := Key(v.ref.table, v.ref.record);
      var i :| 0 <= i < |rows| && RecordKey(rows[i]) == key;
      assert RowOk(spec, scope, KeysOf(rows), rows[i]);
    }
    PrintedReads(spec, scope, t, v, rows, isName);
  }

  lemma {:induction false} LabelledRows(records: seq<RawRecord>, scope: Scope, table: TableId, display: Option<Field>, text: string)
    ensures forall r :: r in Labelled(records, scope, table, display, text) ==> r in records && r.scope == scope && r.table == table
  {
    if records != [] {
      LabelledRows(records[1..], scope, table, display, text);
    }
  }

  /** Whatever text is accepted, the value it means is one the field admits. */
  lemma ParsedFits(spec: Spec, scope: Scope, t: FieldType, text: string, records: seq<RawRecord>, isName: FieldId -> bool)
    ensures var v := ParseAs(spec, scope, t, text, records, isName);
            v.Ok? ==> Fitting(scope, records, t, v.value)
  {
    var v := ParseAs(spec, scope, t, text, records, isName);
    if v.Ok? && v.value.Ref? {
      if "rec_" <= text {
        var r := NamedRow(records, scope, t.target, text).value;
        var i :| 0 <= i < |records| && records[i] == r;
      } else {
        var display := DisplayField(FindTable(spec.tables, t.target).value.fields, isName);
        LabelledRows(records, scope, t.target, display, text);
        var matches := Labelled(records, scope, t.target, display, text);
        assert matches[0] in matches;
        var i :| 0 <= i < |records| && records[i] == matches[0];
      }
    }
  }

  /** Printing what was read and reading it again gives the same value: the grid settles after one round. */
  lemma CellStable(spec: Spec, scope: Scope, table: TableId, field: FieldId, text: string, records: seq<RawRecord>,
                   isName: FieldId -> bool)
    requires |records| <= MAX_RECORDS
    ensures var v := ParseCell(spec, scope, table, field, text, records, isName);
            v.Ok? ==> ParseCell(spec, scope, table, field, ValueInput(Some(v.value)), records, isName) == v
  {
    var v := ParseCell(spec, scope, table, field, text, records, isName);
    if v.Ok? {
      var t := FieldOf(spec, table, field).value.fieldType;
      ParsedFits(spec, scope, t, text, records, isName);
      PrintedReads(spec, scope, t, v.value, records, isName);
    }
  }
}
