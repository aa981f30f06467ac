/**
 The runtime's form: how the text of each input field becomes a parameter of the request. It is read
 by another parser than the grid's, and means the same on everything the grid prints.
 */
module Params {
  import opened Wrappers
  import opened Sorting
  import opened AppSpec
  import opened Decimals
  import opened Records
  import opened Cells
  import opened Wire

  datatype InputField = InputField(field: FieldId, required: bool, fieldType: FieldType)

  predicate AllDigits(s: string) {
    forall i :: 0 <= i < |s| ==> IsDigit(s[i])
  }

  predicate HasSign(text: string) {
    text != "" && (text[0] == '-' || text[0] == '+')
  }

  function Unsigned(text: string): string {
    if HasSign(text) then text[1..] else text
  }

  /** Signed decimal text as the standard library reads it: one optional sign, then digits. */
  function ParseSigned(text: string): Option<i64> {
    var digits := Unsigned(text);
    if digits == "" || !AllDigits(digits) then None
    else
      var n: int := if text[0] == '-' then -(DigitsValue(digits) as int) else DigitsValue(digits);
      if InI64(n) then Some(n) else None
  }

  /** The record whose identity has this text. */
  function ParseRecordId(text: string): Option<RecordId> {
    if !("rec_" <= text) then None
    else
      var rest := text[4..];
      if CanonicalDecimal(rest) then Some(DigitsValue(rest))
      else if "-" <= rest && CanonicalDecimal(rest[1..]) && DigitsValue(rest[1..]) > 0 then Some(-(DigitsValue(rest[1..]) as int))
      else None
  }

  /** `parse_param`. */
  function ParseParam(t: FieldType, input: string): Option<ValueDto> {
    if input == "" then Some(BlankDto)
    else if input == "null" then Some(NullDto)
    else
      match t
      case TextType => Some(TextDto(if "text:" <= input then input[5..] else input))
      case IntegerType => (match ParseSigned(input) case Some(n) => Some(IntegerDto(n)) case None => None)
      case MoneyType => (match ParseSigned(input) case Some(n) => Some(MoneyDto(n)) case None => None)
      case BoolType => if input == "true" then Some(BoolDto(true)) else if input == "false" then Some(BoolDto(false)) else None
      case RefType(target) => (match ParseRecordId(input) case Some(id) => Some(RefDto(target, id)) case None => None)
  }

  predicate Empty(v: ValueDto) {
    v.BlankDto? || v.NullDto?
  }

  /** One input field in order: its text parses, and a required field has some; an untouched optional field is left out. */
  predicate InputGiven(f: InputField, buffers: map<FieldId, string>) {
    if f.field !in buffers then !f.required
    else
      match ParseParam(f.fieldType, buffers[f.field])
      case Some(v) => !(f.required && Empty(v))
      case None => false
  }

  predicate InputsGiven(fields: seq<InputField>, buffers: map<FieldId, string>) {
    forall i :: 0 <= i < |fields| ==> InputGiven(fields[i], buffers)
  }

  /** The parameters of the request, as the host reads them back in its scope. */
  function Collected(fields: seq<InputField>, buffers: map<FieldId, string>, scope: Scope): Values {
    if fields == [] then map[]
    else
      var f := fields[|fields| - 1];
      var rest := Collected(fields[..|fields| - 1], buffers, scope);
      if f.field in buffers && ParseParam(f.fieldType, buffers[f.field]).Some?
      then rest[f.field := ToDomain(ParseParam(f.fieldType, buffers[f.field]).value, scope)]
      else rest
  }

  method CollectParams(fields: seq<InputField>, buffers: map<FieldId, string>, scope: Scope) returns (r: Option<Values>)
    ensures r == if InputsGiven(fields, buffers) then Some(Collected(fields, buffers, scope)) else None
  {
    var params: Values := map[];
    var errors: set<FieldId> := {};
    for i := 0 to |fields|
      invariant params == Collected(fields[..i], buffers, scope)
      invariant errors == {} <==> InputsGiven(fields[..i], buffers)
    {
      assert fields[..i + 1][..i] == fields[..i];
      InputsStep(fields, buffers, i);
      var field := fields[i];
      if field.field !in buffers {
        if field.required {
          errors := errors + {field.field};
        }
      } else {
        match ParseParam(field.fieldType, buffers[field.field]) {
          case None =>
            errors := errors + {field.field};
          case Some(value) =>
            if field.required && Empty(value) {
              errors := errors + {field.field};
            }
            params := params[field.field := ToDomain(value, scope)];
        }
      }
    }
    assert fields[..|fields|] == fields;
    r := if errors == {} then Some(params) else None;
  }

  lemma InputsStep(fields: seq<InputField>, buffers: map<FieldId, string>, i: nat)
    requires i < |fields|
    ensures InputsGiven(fields[..i + 1], buffers) <==> InputsGiven(fields[..i], buffers) && InputGiven(fields[i], buffers)
  {
    var next, front := fields[..i + 1], fields[..i];
    assert next[i] == fields[i];
    assert forall j :: 0 <= j < i ==> next[j] == front[j];
  }

  // ------------------------------------------------------------ the grid and the form agree

  lemma SignedRead(n: i64)
    ensures ParseSigned(Decimal(n)) == Some(n)
  {
    DecimalRead(n);
    var s := Decimal(n);
    if n < 0 {
      DigitsRead(-(n as int));
      assert s[1..] == Digits(-(n as int));
    } else {
      DigitsRead(n);
      assert IsDigit(s[0]);
    }
  }

  lemma RecordIdRead(id: RecordId)
    ensures ParseRecordId(IdText(id)) == Some(id)
  {
    hide Decimal, Digits, DigitsValue, CanonicalDecimal;
    var text := IdText(id);
    var rest := Decimal(id);
    assert "rec_" <= text && text[4..] == rest;
    DecimalRead(id);
    if id < 0 {
      DigitsCanonical(-id);
      MinusIsNoDigit(rest);
      assert "-" <= rest;
    } else {
      DigitsCanonical(id);
    }
  }

  lemma MinusIsNoDigit(s: string)
    requires s != "" && s[0] == '-'
    ensures !CanonicalDecimal(s)
  {
    assert !IsDigit(s[0]);
  }

  /** Whatever the grid prints for a value that fits a field, the form reads as that value on the wire. */
  lemma PrintedParam(scope: Scope, t: FieldType, v: Value, records: seq<RawRecord>)
    requires Fitting(scope, records, t, v)
    ensures ParseParam(t, ValueInput(Some(v))) == FromDomain(v, scope)
  {
    match v {
      case Blank =>
      case Null =>
      case Text(s) => assert ("text:" + s)[5..] == s;
      case Integer(n) =>
        IntegerRead(n);
        SignedRead(n);
      case Bool(_) =>
      case Money(n) =>
        IntegerRead(n);
        SignedRead(n);
      case Ref(r) =>
        RecordIdRead(r.record);
        assert IdText(r.record)[0] == 'r';
    }
  }

  /** An integer that the grid reads, the form reads alike; the form alone also accepts a leading plus. */
  lemma SignedAgrees(text: string)
    ensures ParseInteger(text).Ok? ==> ParseSigned(text) == Some(ParseInteger(text).value)
    ensures ParseSigned(text).Some? ==> (ParseInteger(text).Ok? <==> text[0] != '+')
  {
    var digits := Unsigned(text);
    if AllDigits(digits) && text != "" && text[0] != '+' {
      forall i | 0 <= i < |text|
        ensures IsDigit(text[i]) || (i == 0 && text[i] == '-')
      {
        if HasSign(text) && i > 0 {
          assert text[i] == digits[i - 1];
        } else if !HasSign(text) {
          assert text[i] == digits[i];
        }
      }
    }
    if ParseInteger(text).Ok? {
      forall i | 0 <= i < |digits|
        ensures IsDigit(digits[i])
      {
        assert digits[i] == text[if HasSign(text) then i + 1 else i];
      }
    }
  }

  /** On every text that both accept for a field without references, grid and form mean the same value. */
  lemma ReadersAgree(spec: Spec, scope: Scope, t: FieldType, text: string, records: seq<RawRecord>, isName: FieldId -> bool)
    requires !t.RefType? && ParseAs(spec, scope, t, text, records, isName).Ok?
    ensures ParseParam(t, text) == FromDomain(ParseAs(spec, scope, t, text, records, isName).value, scope)
  {
    if text != "" {
      SignedAgrees(text);
    }
  }
}
