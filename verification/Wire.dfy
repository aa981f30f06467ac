/**
 Values and revisions on the wire: references travel without their scope, and a revision has exactly
 one text.
 */
module Wire {
  import opened Wrappers
  import opened Sorting
  import opened AppSpec
  import opened Decimals
  import opened Records
  import opened Cells

  datatype ValueDto =
    | BlankDto
    | NullDto
    | TextDto(text: string)
    | IntegerDto(integer: i64)
    | BoolDto(flag: bool)
    | MoneyDto(money: i64)
    | RefDto(table: TableId, record: RecordId)

  function ToDomain(v: ValueDto, scope: Scope): Value {
    match v
    case BlankDto => Blank
    case NullDto => Null
    case TextDto(s) => Text(s)
    case IntegerDto(n) => Integer(n)
    case BoolDto(b) => Bool(b)
    case MoneyDto(n) => Money(n)
    case RefDto(table, record) => Ref(RecordRef(scope, table, record))
  }

  function FromDomain(v: Value, scope: Scope): Option<ValueDto> {
    match v
    case Blank => Some(BlankDto)
    case Null => Some(NullDto)
    case Text(s) => Some(TextDto(s))
    case Integer(n) => Some(IntegerDto(n))
    case Bool(b) => Some(BoolDto(b))
    case Money(n) => Some(MoneyDto(n))
    case Ref(r) => if r.scope == scope then Some(RefDto(r.table, r.record)) else None
  }

  /** The projection is exact both ways, and refuses precisely the references of another scope. */
  lemma WireValueRoundTrip(scope: Scope)
    ensures forall d :: FromDomain(ToDomain(d, scope), scope) == Some(d)
    ensures forall v :: FromDomain(v, scope).Some? ==> ToDomain(FromDomain(v, scope).value, scope) == v
    ensures forall v :: FromDomain(v, scope).None? <==> v.Ref? && v.ref.scope != scope
  {
  }

  /** Every value of checked facts can be sent, and means the same when it comes back. */
  lemma CheckedValuesTravel(spec: Spec, scope: Scope, rows: seq<RawRecord>, r: RawRecord, field: FieldId)
    requires CheckedRecords(spec, scope, rows) && r in rows && FieldOf(spec, r.table, field).Some?
    ensures field in r.values && FromDomain(r.values[field], scope).Some?
    ensures ToDomain(FromDomain(r.values[field], scope).value, scope) == r.values[field]
  {
    hide CheckedRecords, FieldOf, ConstraintsAccept, MachinesAccept;
    CheckedField(spec, scope, rows, r, field);
  }

  // ------------------------------------------------------------ revisions

  /** `RevisionDto`: canonical decimal digits of an unsigned 64-bit number. */
  function ParseRevision(text: string): Option<nat> {
    if text == "" || |text| > 20 || exists i :: 0 <= i < |text| && !IsDigit(text[i]) then None
    else if |text| > 1 && text[0] == '0' then None
    else if DigitsValue(text) > U64_MAX then None
    else Some(DigitsValue(text))
  }

  predicate CanonicalDecimal(s: string) {
    s != "" && (forall i :: 0 <= i < |s| ==> IsDigit(s[i])) && (|s| > 1 ==> s[0] != '0')
  }

  /** Canonical digits are the digits of their value. */
  lemma {:induction false} CanonicalDigits(s: string)
    requires CanonicalDecimal(s)
    ensures Digits(DigitsValue(s)) == s
    ensures |s| > 1 ==> DigitsValue(s) > 0
  {
    var n := |s| - 1;
    var front := s[..n];
    assert s == front + [s[n]];
    assert IsDigit(s[n]) && IsDigit(s[0]);
    if n == 0 {
      assert DigitsValue(front) == 0;
      OneDigit(s[0]);
    } else {
      assert CanonicalDecimal(front);
      CanonicalDigits(front);
      var tens := DigitsValue(front);
      if n == 1 {
        assert front[..0] == "";
        assert tens == s[0] as int - '0' as int;
      }
      assert tens > 0;
      var d := s[n] as int - '0' as int;
      assert (10 * tens + d) / 10 == tens && (10 * tens + d) % 10 == d;
    }
  }

  lemma OneDigit(c: char)
    requires IsDigit(c)
    ensures [('0' as int + (c as int - '0' as int)) as char] == [c]
  {
  }

  lemma {:induction false} DigitsCanonical(n: nat)
    ensures CanonicalDecimal(Digits(n))
    ensures n > 0 ==> Digits(n)[0] != '0'
  {
    DigitsRead(n);
    if n >= 10 {
      DigitsCanonical(n / 10);
      assert Digits(n)[0] == Digits(n / 10)[0];
    }
  }

  function Power10(k: nat): nat {
    if k == 0 then 1 else 10 * Power10(k - 1)
  }

  lemma {:induction false} DigitsLength(n: nat)
    ensures n > 0 ==> Power10(|Digits(n)| - 1) <= n
  {
    if n >= 10 {
      DigitsLength(n / 10);
      assert |Digits(n)| == |Digits(n / 10)| + 1;
      assert 10 * (n / 10) <= n;
    }
  }

  lemma {:induction false} Power10Grows(a: nat, b: nat)
    requires a <= b
    ensures Power10(a) <= Power10(b)
  {
    if a < b {
      Power10Grows(a, b - 1);
    }
  }

  lemma TwentyDigits(n: nat)
    requires n <= U64_MAX
    ensures |Digits(n)| <= 20
  {
    if |Digits(n)| > 20 {
      DigitsLength(n);
      Power10Grows(20, |Digits(n)| - 1);
      assert Power10(20) == 100_000_000_000_000_000_000 by {
        assert Power10(5) == 100_000;
        assert Power10(10) == 10_000_000_000;
        assert Power10(15) == 1_000_000_000_000_000;
      }
    }
  }

  /** A text is read as revision `n` exactly when it is the printed form of `n`, for every unsigned 64-bit number. */
  lemma RevisionText(text: string, n: nat)
    ensures ParseRevision(text) == Some(n) <==> n <= U64_MAX && text == Digits(n)
  {
    if ParseRevision(text) == Some(n) {
      CanonicalDigits(text);
    }
    if n <= U64_MAX && text == Digits(n) {
      DigitsRead(n);
      DigitsCanonical(n);
      TwentyDigits(n);
    }
  }
}
