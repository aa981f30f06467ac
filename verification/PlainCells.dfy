/**
 Cell texts in plain terms: which texts read as which value, as which reference and as which error,
 said of the text and of the rows, for the grid and for the form.
 */
module PlainCells {
  import opened Wrappers
  import opened Sorting
  import opened AppSpec
  import opened Decimals
  import opened Records
  import opened Cells
  import opened Params
  import opened PlainFacts

  // ------------------------------------------------------------ numerals

  function Zeros(k: nat): string {
    if k == 0 then "" else Zeros(k - 1) + "0"
  }

  /** `text` is a numeral for `n`: an optional minus sign, any number of zeros, and the decimal digits of its size. */
  ghost predicate Numeral(text: string, n: int) {
    || (n >= 0 && exists k: nat :: text == Zeros(k) + Digits(n))
    || (n <= 0 && exists k: nat :: text == "-" + Zeros(k) + Digits(-n))
  }

  lemma {:induction false} ZerosRead(k: nat, n: nat)
    ensures forall i :: 0 <= i < |Zeros(k) + Digits(n)| ==> IsDigit((Zeros(k) + Digits(n))[i])
    ensures DigitsValue(Zeros(k) + Digits(n)) == n
  {
    var s := Zeros(k) + Digits(n);
    ZerosDigits(k);
    if n < 10 {
      assert s[..|s| - 1] == Zeros(k);
      ZerosValue(k);
    } else {
      ZerosRead(k, n / 10);
      assert s[..|s| - 1] == Zeros(k) + Digits(n / 10);
    }
  }

  lemma {:induction false} ZerosDigits(k: nat)
    ensures |Zeros(k)| == k
    ensures forall i :: 0 <= i < k ==> Zeros(k)[i] == '0'
  {
    if k > 0 {
      ZerosDigits(k - 1);
    }
  }

  lemma {:induction false} ZerosValue(k: nat)
    ensures forall i :: 0 <= i < |Zeros(k)| ==> IsDigit(Zeros(k)[i])
    ensures DigitsValue(Zeros(k)) == 0
  {
    ZerosDigits(k);
    if k > 0 {
      ZerosValue(k - 1);
      assert Zeros(k)[..k - 1] == Zeros(k - 1);
    }
  }

  predicate AllDigit(s: string) {
    forall i :: 0 <= i < |s| ==> IsDigit(s[i])
  }

  lemma LastDigit(s: string)
    requires s != "" && AllDigit(s)
    ensures var n := |s| - 1;
            && s == s[..n] + [s[n]] && AllDigit(s[..n])
            && '0' <= s[n] <= '9' && DigitsValue(s) == 10 * DigitsValue(s[..n]) + (s[n] as int - '0' as int)
  {
    hide DigitsValue;
    assert IsDigit(s[|s| - 1]);
    ValueStep(s);
  }

  lemma ValueStep(s: string)
    requires s != "" && forall i :: 0 <= i < |s| ==> IsDigit(s[i])
    ensures IsDigit(s[|s| - 1]) && DigitsValue(s) == 10 * DigitsValue(s[..|s| - 1]) + (s[|s| - 1] as int - '0' as int)
  {
  }

  lemma DigitsGrow(v: nat, c: char)
    requires '0' <= c <= '9'
    ensures v > 0 ==> Digits(10 * v + (c as int - '0' as int)) == Digits(v) + [c]
    ensures Digits(c as int - '0' as int) == [c] && Digits(0) == "0"
  {
  }

  lemma ZerosGrow(k: nat, d: string)
    ensures Zeros(k) + "0" + d == Zeros(k + 1) + d
  {
  }

  /** Digits are some zeros and then the canonical digits of their value. */
  lemma {:induction false} DigitsSplit(s: string) returns (k: nat)
    requires s != "" && AllDigit(s)
    ensures s == Zeros(k) + Digits(DigitsValue(s))
    decreases |s|
  {
    hide Digits, Zeros, IsDigit, DigitsValue;
    var n := |s| - 1;
    var front := s[..n];
    LastDigit(s);
    if front == "" {
      NoZeros();
      DigitsGrow(0, s[n]);
      k := 0;
    } else {
      var j := DigitsSplit(front);
      DigitsGrow(DigitsValue(front), s[n]);
      if DigitsValue(front) == 0 {
        ZerosGrow(j, [s[n]]);
        k := j + 1;
      } else {
        assert Zeros(j) + Digits(DigitsValue(front)) + [s[n]] == Zeros(j) + (Digits(DigitsValue(front)) + [s[n]]);
        k := j;
      }
    }
  }

  lemma NoZeros()
    ensures Zeros(0) == "" && DigitsValue("") == 0
  {
  }

  /** What the grid's parser makes of digits, and of digits after a minus sign. */
  lemma DigitsParse(digits: string)
    requires digits != "" && AllDigit(digits)
    ensures ParseInteger(digits) == if InI64(DigitsValue(digits)) then Ok(DigitsValue(digits)) else Err(Overflow)
    ensures ParseInteger("-" + digits) == if InI64(-(DigitsValue(digits) as int)) then Ok(-(DigitsValue(digits) as int)) else Err(Overflow)
  {
    hide DigitsValue;
    assert IsDigit(digits[0]);
    var text := "-" + digits;
    assert text[1..] == digits;
    forall i | 0 <= i < |text|
      ensures IsDigit(text[i]) || (i == 0 && text[i] == '-')
    {
      assert i > 0 ==> text[i] == digits[i - 1];
    }
  }

  lemma ParsesDigits(text: string)
    requires ParseInteger(text) != Err(InvalidCell)
    ensures text != "" && (AllDigit(text) || (text[0] == '-' && text[1..] != "" && AllDigit(text[1..])))
  {
    hide DigitsValue;
    if text[0] == '-' {
      forall i | 0 <= i < |text| - 1
        ensures IsDigit(text[1..][i])
      {
        assert text[1..][i] == text[i + 1];
      }
    }
  }

  lemma NumeralReads(text: string, n: int)
    requires Numeral(text, n)
    ensures ParseInteger(text) == if InI64(n) then Ok(n) else Err(Overflow)
  {
    hide ParseInteger, DigitsValue, Zeros, Digits;
    if n >= 0 && exists k: nat :: text == Zeros(k) + Digits(n) {
      var k: nat :| text == Zeros(k) + Digits(n);
      ZerosRead(k, n);
      DigitsParse(text);
    } else {
      var k: nat :| text == "-" + Zeros(k) + Digits(-n);
      ZerosRead(k, -n);
      assert text == "-" + (Zeros(k) + Digits(-n));
      DigitsParse(Zeros(k) + Digits(-n));
    }
  }

  lemma ReadIsNumeral(text: string) returns (n: int)
    requires ParseInteger(text) != Err(InvalidCell)
    ensures Numeral(text, n)
  {
    hide ParseInteger, DigitsValue, Zeros, Digits;
    ParsesDigits(text);
    if AllDigit(text) {
      var k := DigitsSplit(text);
      n := DigitsValue(text);
    } else {
      var digits := text[1..];
      assert text == "-" + digits;
      var k := DigitsSplit(digits);
      n := -(DigitsValue(digits) as int);
      assert text == "-" + Zeros(k) + Digits(-n);
    }
  }

  /** A text reads as a number exactly when it is a numeral for it within 64 bits, overflows exactly when it is one beyond them, and is invalid otherwise. */
  lemma IntegerExactly(text: string)
    ensures forall n: i64 :: ParseInteger(text) == Ok(n) <==> Numeral(text, n)
    ensures ParseInteger(text) == Err(Overflow) <==> exists n: int :: Numeral(text, n) && !(-0x8000_0000_0000_0000 <= n && n <= 0x7fff_ffff_ffff_ffff)
    ensures ParseInteger(text) == Err(InvalidCell) <==> forall n: int :: !Numeral(text, n)
  {
    hide ParseInteger, Numeral;
    forall n: int
      ensures Numeral(text, n) ==> ParseInteger(text) == if InI64(n) then Ok(n) else Err(Overflow)
    {
      if Numeral(text, n) {
        NumeralReads(text, n);
      }
    }
    IntegerErrors(text);
    if ParseInteger(text) != Err(InvalidCell) {
      var n := ReadIsNumeral(text);
    }
  }

  lemma IntegerErrors(text: string)
    ensures ParseInteger(text).Err? ==> ParseInteger(text) == Err(InvalidCell) || ParseInteger(text) == Err(Overflow)
  {
  }

  // ------------------------------------------------------------ references by label

  /** `f` is the first text field among these. */
  predicate FirstIs(fields: seq<Field>, f: FieldId) {
    exists i :: 0 <= i < |fields| && fields[i].id == f && fields[i].fieldType == TextType
                && forall j :: 0 <= j < i ==> fields[j].fieldType != TextType
  }

  /** `f` is the first text field among these that is called a name. */
  predicate FirstNamed(fields: seq<Field>, isName: FieldId -> bool, f: FieldId) {
    exists i :: 0 <= i < |fields| && fields[i].id == f && fields[i].fieldType == TextType && isName(f)
                && forall j :: 0 <= j < i ==> fields[j].fieldType != TextType || !isName(fields[j].id)
  }

  /** Field `f` shows the rows of a table with these fields: the first text field called a name, or the first text field if none is. */
  predicate Shows(fields: seq<Field>, isName: FieldId -> bool, f: FieldId) {
    || FirstNamed(fields, isName, f)
    || (FirstIs(fields, f) && forall j :: 0 <= j < |fields| ==> fields[j].fieldType != TextType || !isName(fields[j].id))
  }

  /** Row `r` of this scope and table holds exactly this text in the field that shows its table. */
  predicate Labels(r: RawRecord, scope: Scope, fields: seq<Field>, isName: FieldId -> bool, table: TableId, text: string) {
    && r.scope == scope && r.table == table
    && exists f :: f in r.values && Shows(fields, isName, f) && r.values[f] == Text(text)
  }

  lemma {:induction false} FirstTextMeans(fields: seq<Field>, wanted: FieldId -> bool, f: FieldId)
    ensures FirstText(fields, wanted).Some? && FirstText(fields, wanted).value.id == f <==> FirstNamed(fields, wanted, f)
    ensures FirstText(fields, wanted).None? <==> forall j :: 0 <= j < |fields| ==> fields[j].fieldType != TextType || !wanted(fields[j].id)
  {
    if fields != [] {
      var rest := fields[1..];
      FirstTextMeans(rest, wanted, f);
      assert forall j :: 0 <= j < |rest| ==> rest[j] == fields[j + 1];
      if fields[0].fieldType != TextType || !wanted(fields[0].id) {
        if FirstNamed(rest, wanted, f) {
          var i :| 0 <= i < |rest| && rest[i].id == f && rest[i].fieldType == TextType && wanted(f)
                   && forall j :: 0 <= j < i ==> rest[j].fieldType != TextType || !wanted(rest[j].id);
          forall j | 0 <= j < i + 1
            ensures fields[j].fieldType != TextType || !wanted(fields[j].id)
          {
            assert j > 0 ==> fields[j] == rest[j - 1];
          }
          assert fields[i + 1] == rest[i];
        }
        if FirstNamed(fields, wanted, f) {
          var i :| 0 <= i < |fields| && fields[i].id == f && fields[i].fieldType == TextType && wanted(f)
                   && forall j :: 0 <= j < i ==> fields[j].fieldType != TextType || !wanted(fields[j].id);
          assert rest[i - 1] == fields[i];
        }
        if FirstText(rest, wanted).None? {
          forall j | 0 <= j < |fields|
            ensures fields[j].fieldType != TextType || !wanted(fields[j].id)
          {
            assert j > 0 ==> fields[j] == rest[j - 1];
          }
        }
      } else if FirstNamed(fields, wanted, f) {
        var i :| 0 <= i < |fields| && fields[i].id == f && fields[i].fieldType == TextType && wanted(f)
                 && forall j :: 0 <= j < i ==> fields[j].fieldType != TextType || !wanted(fields[j].id);
        assert i == 0;
      }
    }
  }

  lemma AnyIsFirst(fields: seq<Field>, any: FieldId -> bool, f: FieldId)
    requires forall g :: any(g)
    ensures FirstNamed(fields, any, f) <==> FirstIs(fields, f)
  {
    if FirstNamed(fields, any, f) {
      var i :| 0 <= i < |fields| && fields[i].id == f && fields[i].fieldType == TextType && any(f)
               && forall j :: 0 <= j < i ==> fields[j].fieldType != TextType || !any(fields[j].id);
      forall j | 0 <= j < i
        ensures fields[j].fieldType != TextType
      {
        assert any(fields[j].id);
      }
    }
  }

  /** Only one field shows a table. */
  lemma DisplayMeans(fields: seq<Field>, isName: FieldId -> bool, f: FieldId)
    ensures Shows(fields, isName, f) <==> DisplayField(fields, isName).Some? && DisplayField(fields, isName).value.id == f
  {
    hide FirstText, FirstNamed, FirstIs;
    FirstTextMeans(fields, isName, f);
    if FirstText(fields, isName).None? {
      AnyShows(fields, isName, f);
    } else {
      NamedExcludes(fields, isName, f);
    }
  }

  lemma NamedExcludes(fields: seq<Field>, isName: FieldId -> bool, f: FieldId)
    requires FirstText(fields, isName).Some?
    ensures !forall j :: 0 <= j < |fields| ==> fields[j].fieldType != TextType || !isName(fields[j].id)
  {
    FirstTextMeans(fields, isName, f);
  }

  lemma AnyShows(fields: seq<Field>, isName: FieldId -> bool, f: FieldId)
    requires FirstText(fields, isName).None?
    ensures DisplayField(fields, isName).Some? && DisplayField(fields, isName).value.id == f <==> FirstIs(fields, f)
    ensures !FirstNamed(fields, isName, f)
  {
    hide FirstText, FirstIs;
    FirstTextMeans(fields, isName, f);
    var any: FieldId -> bool := _ => true;
    FirstTextMeans(fields, any, f);
    AnyIsFirst(fields, any, f);
    AnyText(fields, any);
  }

  lemma {:induction false} AnyText(fields: seq<Field>, any: FieldId -> bool)
    requires forall g :: any(g)
    ensures FirstText(fields, any) == FirstText(fields, _ => true)
  {
    if fields != [] {
      AnyText(fields[1..], any);
      SameAny(fields[1..], _ => true, _ => true);
    }
  }

  lemma {:induction false} SameAny(fields: seq<Field>, a: FieldId -> bool, b: FieldId -> bool)
    requires forall g :: a(g) == b(g)
    ensures FirstText(fields, a) == FirstText(fields, b)
  {
    if fields != [] {
      SameAny(fields[1..], a, b);
    }
  }

  /** What `Labelled` lists is the rows that the text labels, in order: none, one, or two and more. */
  lemma {:induction false} LabelledRowsAre(records: seq<RawRecord>, scope: Scope, fields: seq<Field>, isName: FieldId -> bool, table: TableId, text: string)
    ensures var found := Labelled(records, scope, table, DisplayField(fields, isName), text);
            && (found == [] <==> forall i :: 0 <= i < |records| ==> !Labels(records[i], scope, fields, isName, table, text))
            && (|found| == 1 ==> exists i :: 0 <= i < |records| && records[i] == found[0] && Labels(records[i], scope, fields, isName, table, text)
                                           && forall j :: 0 <= j < |records| && j != i ==> !Labels(records[j], scope, fields, isName, table, text))
            && (|found| > 1 ==> exists i, j :: 0 <= i < j < |records| && Labels(records[i], scope, fields, isName, table, text)
                                             && Labels(records[j], scope, fields, isName, table, text))
  {
    hide Labels, DisplayField;
    if records != [] {
      var display := DisplayField(fields, isName);
      var rest := records[1..];
      LabelledRowsAre(rest, scope, fields, isName, table, text);
      LabelledRow(records[0], scope, fields, isName, table, text);
      var tail := Labelled(rest, scope, table, display, text);
      var found := Labelled(records, scope, table, display, text);
      assert forall i :: 1 <= i < |records| ==> records[i] == rest[i - 1];
      if Labels(records[0], scope, fields, isName, table, text) {
        assert found == [records[0]] + tail;
        if tail == [] {
          forall j | 0 <= j < |records| && j != 0
            ensures !Labels(records[j], scope, fields, isName, table, text)
          {
            assert records[j] == rest[j - 1];
          }
          assert records[0] == found[0];
        } else {
          var j :| 0 <= j < |rest| && Labels(rest[j], scope, fields, isName, table, text);
          assert Labels(records[j + 1], scope, fields, isName, table, text);
        }
      } else {
        assert found == tail;
        if tail == [] {
          forall i | 0 <= i < |records|
            ensures !Labels(records[i], scope, fields, isName, table, text)
          {
            assert i > 0 ==> records[i] == rest[i - 1];
          }
        } else if |tail| == 1 {
          var i :| 0 <= i < |rest| && rest[i] == tail[0] && Labels(rest[i], scope, fields, isName, table, text)
                   && forall j :: 0 <= j < |rest| && j != i ==> !Labels(rest[j], scope, fields, isName, table, text);
          forall j | 0 <= j < |records| && j != i + 1
            ensures !Labels(records[j], scope, fields, isName, table, text)
          {
            assert j > 0 ==> records[j] == rest[j - 1];
          }
          assert records[i + 1] == found[0];
        } else {
          var i, j :| 0 <= i < j < |rest| && Labels(rest[i], scope, fields, isName, table, text) && Labels(rest[j], scope, fields, isName, table, text);
          assert Labels(records[i + 1], scope, fields, isName, table, text) && Labels(records[j + 1], scope, fields, isName, table, text);
        }
      }
    }
  }

  lemma LabelledRow(r: RawRecord, scope: Scope, fields: seq<Field>, isName: FieldId -> bool, table: TableId, text: string)
    ensures var display := DisplayField(fields, isName);
            Labels(r, scope, fields, isName, table, text) <==>
              r.scope == scope && r.table == table && display.Some? && display.value.id in r.values && r.values[display.value.id] == Text(text)
  {
    hide Shows, DisplayField;
    forall f
      ensures Shows(fields, isName, f) <==> DisplayField(fields, isName).Some? && DisplayField(fields, isName).value.id == f
    {
      DisplayMeans(fields, isName, f);
    }
  }

  /**
   A text that is neither a printed identity nor reserved reads as the reference to `x` exactly when one row
   alone of the target table carries it as its label and `x` is that row; it is ambiguous exactly when two
   rows or more carry it, and invalid when none does.
   */
  lemma LabelExactly(spec: Spec, scope: Scope, table: TableId, field: Field, target: Table, text: string, records: seq<RawRecord>, isName: FieldId -> bool)
    requires Checked(spec) && scope.app == spec.app && |records| <= 4_096
    requires Declares(spec, table, field) && field.fieldType == RefType(target.id) && target in spec.tables
    requires text != "" && text != "null" && !("rec_" <= text)
    ensures var r := ParseCell(spec, scope, table, field.id, text, records, isName);
            && (forall v :: r == Ok(v) <==>
                  exists i :: 0 <= i < |records| && Labels(records[i], scope, target.fields, isName, target.id, text)
                              && v == Ref(RecordRef(scope, target.id, records[i].id))
                              && forall j :: 0 <= j < |records| && j != i ==> !Labels(records[j], scope, target.fields, isName, target.id, text))
            && (r == Err(AmbiguousReference) <==>
                  exists i, j :: 0 <= i < j < |records| && Labels(records[i], scope, target.fields, isName, target.id, text)
                                 && Labels(records[j], scope, target.fields, isName, target.id, text))
            && (r == Err(InvalidCell) <==> forall i :: 0 <= i < |records| ==> !Labels(records[i], scope, target.fields, isName, target.id, text))
  {
    hide Checked, Labels, DisplayField, Labelled, Declares;
    FieldFound(spec, table, field);
    TableFound(spec, target);
    LabelledRowsAre(records, scope, target.fields, isName, target.id, text);
  }

  // ------------------------------------------------------------ references by identity

  lemma {:induction false} FirstWithIdMeans(records: seq<RawRecord>, text: string)
    ensures match FirstWithId(records, text)
            case None => forall i :: 0 <= i < |records| ==> IdText(records[i].id) != text
            case Some(r) => exists i :: 0 <= i < |records| && records[i] == r && IdText(r.id) == text && forall j :: 0 <= j < i ==> IdText(records[j].id) != text
  {
    hide IdText;
    if records != [] && IdText(records[0].id) != text {
      var rest := records[1..];
      FirstWithIdMeans(rest, text);
      assert forall i :: 1 <= i < |records| ==> records[i] == rest[i - 1];
      if FirstWithId(rest, text).Some? {
        var r := FirstWithId(rest, text).value;
        var i :| 0 <= i < |rest| && rest[i] == r && IdText(r.id) == text && forall j :: 0 <= j < i ==> IdText(rest[j].id) != text;
        forall j | 0 <= j < i + 1
          ensures IdText(records[j].id) != text
        {
          assert j > 0 ==> records[j] == rest[j - 1];
        }
        assert records[i + 1] == r;
      } else {
        forall i | 0 <= i < |records|
          ensures IdText(records[i].id) != text
        {
          assert i > 0 ==> records[i] == rest[i - 1];
        }
      }
    } else if records != [] {
      assert records[0] == FirstWithId(records, text).value;
    }
  }

  /** A printed identity reads as the reference to `x` exactly when a row of this scope and the target table has it; otherwise the first row with it says why not. */
  lemma IdentityExactly(spec: Spec, scope: Scope, table: TableId, field: Field, target: TableId, text: string, records: seq<RawRecord>, isName: FieldId -> bool)
    requires Checked(spec) && scope.app == spec.app && |records| <= 4_096
    requires Declares(spec, table, field) && field.fieldType == RefType(target) && "rec_" <= text
    ensures var r := ParseCell(spec, scope, table, field.id, text, records, isName);
            && (forall v :: r == Ok(v) <==>
                  exists q :: q in records && q.scope == scope && q.table == target && IdText(q.id) == text && v == Ref(RecordRef(scope, target, q.id)))
            && (r == Err(MissingReference) <==> forall q :: q in records ==> IdText(q.id) != text)
            && (r.Err? && r != Err(MissingReference) ==>
                  exists i :: 0 <= i < |records| && IdText(records[i].id) == text && (forall j :: 0 <= j < i ==> IdText(records[j].id) != text)
                              && r == if records[i].scope != scope then Err(CrossScope) else Err(WrongReferenceTable))
  {
    hide Checked, Declares, IdText;
    FieldFound(spec, table, field);
    FirstWithIdMeans(records, text);
    assert text[0] == 'r';
    assert text != "null" && text != "";
    var named := NamedRow(records, scope, target, text);
    if named.Some? {
      forall q | q in records && q.scope == scope && q.table == target && IdText(q.id) == text
        ensures q.id == named.value.id
      {
        IdTextInjective(q.id, named.value.id);
      }
    } else {
      forall q | q in records && q.scope == scope && q.table == target
        ensures IdText(q.id) != text
      {
        var i :| 0 <= i < |records| && records[i] == q;
      }
    }
    forall q | q in records
      ensures FirstWithId(records, text).None? ==> IdText(q.id) != text
    {
      var i :| 0 <= i < |records| && records[i] == q;
    }
  }
}
