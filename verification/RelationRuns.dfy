/**
 Whole runs of batches: where every captured price comes from, and exactly when the placeholder
 that is validated in its stead costs a batch its acceptance.
 */
module RelationRuns {
  import opened Wrappers
  import opened Sorting
  import opened AppSpec
  import opened Decimals
  import opened Records
  import opened Facts
  import opened Relations

  // ------------------------------------------------------------ runs

  /** The facts after the first `n` batches of a run that started empty; a rejected batch changes nothing. */
  ghost function FactsAt(spec: Spec, scope: Scope, batches: seq<seq<Change>>, n: nat): seq<RawRecord>
    requires n <= |batches|
  {
    if n == 0 then []
    else
      var rows := FactsAt(spec, scope, batches, n - 1);
      if Admits(spec, scope, rows, batches[n - 1]) then After(spec, scope, rows, batches[n - 1]) else rows
  }

  function Held(m: FactMap, k: Key, field: FieldId): Value {
    if k in m then Get(m[k].values, field) else Blank
  }

  /** In `m`, line `k` captured exactly the price of the product it references. */
  predicate Bought(m: FactMap, k: Key, rule: CaptureRule) {
    && Held(m, k, rule.productRef).Ref?
    && var ref := Held(m, k, rule.productRef).ref;
       && Held(m, Key(ref.table, ref.record), rule.productPrice).Money?
       && Held(m, k, rule.capturedPrice) == Held(m, Key(ref.table, ref.record), rule.productPrice)
  }

  lemma MapOfRows(m: FactMap)
    requires Keyed(m)
    ensures AsMap(RowsOf(m)) == m
  {
    ListingRows(m.Keys, m);
    RowsOfKeys(m);
    var rows := RowsOf(m);
    AsMapRows(rows);
    assert DistinctKeys(RecordKey, rows);
    forall k | k in m
      ensures AsMap(rows)[k] == m[k]
    {
      assert m[k] in rows;
      var i :| 0 <= i < |rows| && rows[i] == m[k];
      assert AsMap(rows)[RecordKey(rows[i])] == rows[i];
    }
  }

  lemma AfterMap(spec: Spec, scope: Scope, rows: seq<RawRecord>, changes: seq<Change>)
    ensures AsMap(After(spec, scope, rows, changes)) == NormalFacts(spec, Final(spec, scope, rows, changes))
    ensures var e := Edited(AsMap(rows), changes);
            Keyed(e) && Final(spec, scope, rows, changes).Keys == e.Keys
  {
    hide Fill, Normal, Listing, Sort, NormalRows;
    AsMapRows(rows);
    EditedKeyed(AsMap(rows), changes);
    var f := Final(spec, scope, rows, changes);
    FilledKeyed(spec, scope, Edited(AsMap(rows), changes), Inserted(changes));
    RowsOfValid(spec, scope, f);
    NormalKeyed(spec, f);
    MapOfRows(NormalFacts(spec, f));
  }

  lemma NormalKeyed(spec: Spec, m: FactMap)
    requires Keyed(m)
    ensures Keyed(NormalFacts(spec, m)) && NormalFacts(spec, m).Keys == m.Keys
  {
  }

  /** Normalising a row does not move the value of a declared field. */
  lemma NormalHeld(spec: Spec, m: FactMap, k: Key, field: FieldId)
    requires Keyed(m) && (k in m ==> FieldOf(spec, k.table, field).Some?)
    ensures Held(NormalFacts(spec, m), k, field) == Held(m, k, field)
  {
    if k in m {
      NormalGet(spec, m[k], field);
    }
  }

  // ------------------------------------------------------------ one batch

  /** A line inserted by a batch captures the price its product has when the batch is over. */
  lemma InsertedBuys(spec: Spec, scope: Scope, rows: seq<RawRecord>, changes: seq<Change>, k: Key, rule: CaptureRule)
    requires Checked(spec) && Admits(spec, scope, rows, changes)
    requires rule in spec.captures && rule.lineTable == k.table && k in Inserted(changes)
    ensures Bought(AsMap(After(spec, scope, rows, changes)), k, rule)
  {
    hide Checked, Filled, ValidRows, EditsOk, After, IsCaptured, CaptureChecked;
    AfterMap(spec, scope, rows, changes);
    var e := Edited(AsMap(rows), changes);
    var f := Final(spec, scope, rows, changes);
    DeletedGone(spec, AsMap(rows), changes);
    CapturePath(spec, rule);
    var i :| 0 <= i < |spec.captures| && spec.captures[i] == rule;
    var pricing := Prices(spec, scope, e, e[k]);
    assert Priced(e[k], spec.captures, pricing);
    assert pricing(rule).Some?;
    var price := pricing(rule).value;
    FilledPrice(spec, e[k], pricing, rule);
    assert Held(f, k, rule.capturedPrice) == Money(price);
    assert Held(f, k, rule.productRef) == Held(e, k, rule.productRef);
    var ref := Held(e, k, rule.productRef).ref;
    var product := Key(ref.table, ref.record);
    assert Held(e, product, rule.productPrice) == Money(price);
    FinalKeeps(spec, scope, e, Inserted(changes), product, rule.productPrice);
    CaptureFields(spec, rule);
    FilledKeyed(spec, scope, e, Inserted(changes));
    NormalHeld(spec, f, k, rule.capturedPrice);
    NormalHeld(spec, f, k, rule.productRef);
    NormalHeld(spec, f, product, rule.productPrice);
  }

  lemma CaptureFields(spec: Spec, rule: CaptureRule)
    requires Checked(spec) && rule in spec.captures
    ensures FieldOf(spec, rule.lineTable, rule.capturedPrice).Some? && FieldOf(spec, rule.lineTable, rule.productRef).Some?
    ensures var path := TypeOf(spec, rule.lineTable, rule.productRef);
            path.Some? && path.value.RefType? && FieldOf(spec, path.value.target, rule.productPrice).Some?
  {
    assert CaptureChecked(spec, rule);
  }

  lemma FilledPrice(spec: Spec, r: RawRecord, pricing: Pricing, rule: CaptureRule)
    requires Checked(spec) && Priced(r, spec.captures, pricing) && rule in spec.captures && rule.lineTable == r.table
    ensures pricing(rule).Some?
    ensures Get(Fill(spec, r, pricing).values, rule.capturedPrice) == Money(pricing(rule).value)
    ensures Get(Fill(spec, r, pricing).values, rule.productRef) == Get(r.values, rule.productRef)
  {
    var i :| 0 <= i < |spec.captures| && spec.captures[i] == rule;
    assert StrictlySorted(CaptureKey, spec.captures);
    FilledAt(r, spec.captures, pricing);
    CapturePath(spec, rule);
    assert Lookup(Fill(spec, r, pricing).values, rule.productRef) == Lookup(r.values, rule.productRef);
  }

  /** Deriving captures leaves every field alone that is not a capture destination of an inserted row. */
  lemma FinalKeeps(spec: Spec, scope: Scope, m: FactMap, inserted: set<Key>, k: Key, field: FieldId)
    requires Checked(spec) && Keyed(m) && SourcesResolve(spec, scope, m, inserted)
    requires k !in inserted || !IsCaptured(spec, k.table, field)
    ensures Held(Captured(spec, scope, m, inserted), k, field) == Held(m, k, field)
  {
    hide Checked, Filled, IsCaptured, Priced;
    if k in m && k in inserted {
      FilledTwice(spec, m[k], Prices(spec, scope, m, m[k]));
      assert Lookup(Fill(spec, m[k], Prices(spec, scope, m, m[k])).values, field) == Lookup(m[k].values, field);
    }
  }

  /** A line that outlives a batch keeps its price and its product. */
  lemma SurvivorKeeps(spec: Spec, scope: Scope, rows: seq<RawRecord>, changes: seq<Change>, k: Key, rule: CaptureRule)
    requires Checked(spec) && Admits(spec, scope, rows, changes)
    requires rule in spec.captures && rule.lineTable == k.table && k !in Inserted(changes)
    requires k in AsMap(After(spec, scope, rows, changes))
    ensures k in AsMap(rows)
    ensures Held(AsMap(After(spec, scope, rows, changes)), k, rule.capturedPrice) == Held(AsMap(rows), k, rule.capturedPrice)
    ensures Held(AsMap(After(spec, scope, rows, changes)), k, rule.productRef) == Held(AsMap(rows), k, rule.productRef)
  {
    hide Checked, Filled, ValidRows, IsCaptured, CaptureChecked, After, Fill, Edited, AsMap, ZeroAdmitted;
    AfterMap(spec, scope, rows, changes);
    AsMapRows(rows);
    var m := AsMap(rows);
    var e := Edited(m, changes);
    EditedReflects(m, changes);
    var f := Final(spec, scope, rows, changes);
    assert k in e;
    CaptureFields(spec, rule);
    FilledKeyed(spec, scope, e, Inserted(changes));
    NormalHeld(spec, f, k, rule.capturedPrice);
    NormalHeld(spec, f, k, rule.productRef);
    if k in Touched(changes) {
      var i :| 0 <= i < |changes| && ChangeKey(changes[i]) == k;
      assert ChangeOk(spec, m, changes[i]);
      assert changes[i].Replace?;
      var j :| 0 <= j < |spec.captures| && spec.captures[j] == rule;
      assert Lookup(m[k].values, spec.captures[j].capturedPrice) == Lookup(e[k].values, spec.captures[j].capturedPrice);
      assert Lookup(m[k].values, spec.captures[j].productRef) == Lookup(e[k].values, spec.captures[j].productRef);
    }
  }

  // ------------------------------------------------------------ provenance

  /** Batch `i` inserted line `k`, which has kept since, through batch `n - 1`, the price and product it then got. */
  ghost predicate Origin(spec: Spec, scope: Scope, batches: seq<seq<Change>>, n: nat, k: Key, rule: CaptureRule, i: nat)
    requires n <= |batches|
  {
    && i < n
    && Admits(spec, scope, FactsAt(spec, scope, batches, i), batches[i])
    && k in Inserted(batches[i])
    && Bought(AsMap(FactsAt(spec, scope, batches, i + 1)), k, rule)
    && (forall j :: i < j < n ==>
          Admits(spec, scope, FactsAt(spec, scope, batches, j), batches[j]) ==> k !in Inserted(batches[j]))
    && (forall j :: i < j <= n ==>
          && k in AsMap(FactsAt(spec, scope, batches, j))
          && Held(AsMap(FactsAt(spec, scope, batches, j)), k, rule.capturedPrice)
             == Held(AsMap(FactsAt(spec, scope, batches, i + 1)), k, rule.capturedPrice)
          && Held(AsMap(FactsAt(spec, scope, batches, j)), k, rule.productRef)
             == Held(AsMap(FactsAt(spec, scope, batches, i + 1)), k, rule.productRef))
  }

  /** Every live line holds the price its product had at the end of the batch that last inserted the line. */
  lemma {:induction false} CaptureProvenance(spec: Spec, scope: Scope, batches: seq<seq<Change>>, n: nat, k: Key, rule: CaptureRule)
    requires Checked(spec) && n <= |batches|
    requires rule in spec.captures && rule.lineTable == k.table && k in AsMap(FactsAt(spec, scope, batches, n))
    ensures exists i :: Origin(spec, scope, batches, n, k, rule, i)
  {
    hide Checked, Admits, After, AsMap, Bought, Held, Inserted, FactsAt, Origin;
    FactsUnfold(spec, scope, batches, n);
    if n == 0 {
      EmptyMap();
    } else {
      var rows := FactsAt(spec, scope, batches, n - 1);
      if Admits(spec, scope, rows, batches[n - 1]) && k in Inserted(batches[n - 1]) {
        InsertedBuys(spec, scope, rows, batches[n - 1], k, rule);
        OriginStarts(spec, scope, batches, n, k, rule);
      } else {
        if Admits(spec, scope, rows, batches[n - 1]) {
          SurvivorKeeps(spec, scope, rows, batches[n - 1], k, rule);
        }
        CaptureProvenance(spec, scope, batches, n - 1, k, rule);
        var i :| Origin(spec, scope, batches, n - 1, k, rule, i);
        OriginExtends(spec, scope, batches, n, k, rule, i);
      }
    }
  }

  lemma FactsUnfold(spec: Spec, scope: Scope, batches: seq<seq<Change>>, n: nat)
    requires n <= |batches|
    ensures FactsAt(spec, scope, batches, n)
            == if n == 0 then []
               else
                 var rows := FactsAt(spec, scope, batches, n - 1);
                 if Admits(spec, scope, rows, batches[n - 1]) then After(spec, scope, rows, batches[n - 1]) else rows
  {
    hide Admits, After;
  }

  lemma OriginStarts(spec: Spec, scope: Scope, batches: seq<seq<Change>>, n: nat, k: Key, rule: CaptureRule)
    requires 0 < n <= |batches| && k in AsMap(FactsAt(spec, scope, batches, n))
    requires Admits(spec, scope, FactsAt(spec, scope, batches, n - 1), batches[n - 1]) && k in Inserted(batches[n - 1])
    requires Bought(AsMap(FactsAt(spec, scope, batches, n)), k, rule)
    ensures Origin(spec, scope, batches, n, k, rule, n - 1)
  {
    hide Admits, AsMap, Bought, Held, Inserted, FactsAt;
  }

  lemma OriginExtends(spec: Spec, scope: Scope, batches: seq<seq<Change>>, n: nat, k: Key, rule: CaptureRule, i: nat)
    requires 0 < n <= |batches| && Origin(spec, scope, batches, n - 1, k, rule, i)
    requires Admits(spec, scope, FactsAt(spec, scope, batches, n - 1), batches[n - 1]) ==> k !in Inserted(batches[n - 1])
    requires var now, before := AsMap(FactsAt(spec, scope, batches, n)), AsMap(FactsAt(spec, scope, batches, n - 1));
             && k in now && Held(now, k, rule.capturedPrice) == Held(before, k, rule.capturedPrice)
             && Held(now, k, rule.productRef) == Held(before, k, rule.productRef)
    ensures Origin(spec, scope, batches, n, k, rule, i)
  {
    hide Admits, AsMap, Bought, Held, Inserted, FactsAt;
  }

  lemma EmptyMap()
    ensures AsMap([]) == map[]
  {
  }

  /** Every batch of a run starts from checked facts. */
  lemma {:induction false} FactsChecked(spec: Spec, scope: Scope, batches: seq<seq<Change>>, n: nat)
    requires Checked(spec) && scope.app == spec.app && n <= |batches|
    ensures CheckedRecords(spec, scope, FactsAt(spec, scope, batches, n))
  {
    hide Checked, Admits, After, CheckedRecords, ValidRows;
    if n == 0 {
      EmptyChecked(spec, scope);
    } else {
      FactsChecked(spec, scope, batches, n - 1);
      var rows := FactsAt(spec, scope, batches, n - 1);
      if Admits(spec, scope, rows, batches[n - 1]) {
        AdmittedChecked(spec, scope, rows, batches[n - 1]);
      }
    }
  }

  lemma AdmittedChecked(spec: Spec, scope: Scope, rows: seq<RawRecord>, changes: seq<Change>)
    requires Admits(spec, scope, rows, changes)
    ensures CheckedRecords(spec, scope, After(spec, scope, rows, changes))
  {
    hide Checked, CheckedRecords, ValidRows, ZeroAdmitted;
    CanonicalChecked(spec, scope, RowsOf(Final(spec, scope, rows, changes)));
  }

  lemma EmptyChecked(spec: Spec, scope: Scope)
    requires scope.app == spec.app
    ensures CheckedRecords(spec, scope, [])
  {
  }

  // ------------------------------------------------------------ the placeholder

  /** Every constraint on a capture destination admits zero. */
  ghost predicate ZeroEverywhere(spec: Spec) {
    forall j :: 0 <= j < |spec.captures| ==>
      ConstraintsAccept(spec, spec.captures[j].lineTable, spec.captures[j].capturedPrice, Money(0))
  }

  /** Where zero is admitted, soundness of the batch is all that acceptance asks. */
  lemma SoundIsEnough(spec: Spec, scope: Scope, rows: seq<RawRecord>, changes: seq<Change>)
    requires ZeroEverywhere(spec)
    ensures Admits(spec, scope, rows, changes) <==> Sound(spec, scope, rows, changes)
  {
  }

  // ------------------------------------------------------------ a sound batch that is turned away

  const SHOP := Scope(0, 0)

  function ProductTable(): Table {
    Table(1, [Field(1, true, MoneyType)])
  }

  function LineTable(): Table {
    Table(2, [Field(2, true, RefType(1)), Field(3, false, MoneyType)])
  }

  /** Lines capture the price of their product, and captured prices lie between 1 and 100. */
  function PricedSpec(): Spec {
    Spec(2, 0,
         [ProductTable(), LineTable()],
         [CaptureRule(2, 2, 1, 3)], [], [FieldConstraint(0, 2, 3, NumericRange(1, 100))], [], [])
  }

  function Product(): RawRecord {
    RawRecord(SHOP, 1, 1, map[1 := Money(5)])
  }

  function Line(price: Value): RawRecord {
    RawRecord(SHOP, 1, 2, map[2 := Ref(RecordRef(SHOP, 1, 1)), 3 := price])
  }

  function Purchase(): seq<Change> {
    [Change.Insert(Product()), Change.Insert(Line(Blank))]
  }

  lemma PricedFields()
    ensures FindTable(PricedSpec().tables, 1) == Some(PricedSpec().tables[0])
    ensures FindTable(PricedSpec().tables, 2) == Some(PricedSpec().tables[1])
    ensures FieldOf(PricedSpec(), 1, 1) == Some(Field(1, true, MoneyType))
    ensures FieldOf(PricedSpec(), 2, 2) == Some(Field(2, true, RefType(1)))
    ensures FieldOf(PricedSpec(), 2, 3) == Some(Field(3, false, MoneyType))
  {
    var t := PricedSpec().tables;
    assert FindTable(t[1..], 2) == Some(t[1]);
    var f := t[1].fields;
    assert FindField(f[1..], 3) == Some(f[1]);
  }

  lemma PricedTables()
    ensures TablesChecked(PricedSpec())
  {
    hide FindTable;
    var spec := PricedSpec();
    PricedFields();
    var p, l := ProductTable(), LineTable();
    assert spec.tables[1..] == [l];
    assert FieldCount(spec.tables[1..]) == 2;
    assert StrictlySorted(TableKey, spec.tables);
    assert StrictlySorted(FieldKey, p.fields);
    assert StrictlySorted(FieldKey, l.fields);
    assert forall t :: t in spec.tables ==> t == p || t == l;
    assert forall f :: f in p.fields ==> f.id == 1 && f.fieldType == MoneyType;
    assert forall f :: f in l.fields ==> f.id != 1 && (f.fieldType.RefType? ==> f.fieldType.target == 1);
  }

  lemma PricedSpecChecked()
    ensures Checked(PricedSpec())
  {
    hide FieldOf, FindTable, FindField, TablesChecked;
    PricedFields();
    PricedTables();
  }

  const PRODUCT := Key(1, 1)
  const LINE := Key(2, 1)

  function Candidate(price: Value): FactMap {
    map[PRODUCT := Product(), LINE := Line(price)]
  }

  lemma PurchaseEdits()
    ensures AsMap([]) == map[]
    ensures Edited(map[], Purchase()) == Candidate(Blank)
    ensures Inserted(Purchase()) == {PRODUCT, LINE}
    ensures EditsOk(PricedSpec(), map[], Purchase())
  {
    var b := Purchase();
    assert b[..1] == [b[0]] && b[..1][..0] == [];
    assert Edited(map[], b[..1]) == map[PRODUCT := Product()];
    assert ChangeKey(b[0]) == PRODUCT && ChangeKey(b[1]) == LINE;
    forall k
      ensures k in Inserted(b) <==> k in {PRODUCT, LINE}
    {
      assert b[0].Insert? && b[1].Insert?;
    }
  }

  lemma PurchaseFills(r: RawRecord, pricing: Pricing)
    ensures Fill(PricedSpec(), r, pricing).values
            == if r.table == 2 && pricing(CaptureRule(2, 2, 1, 3)).Some?
               then r.values[3 := Money(pricing(CaptureRule(2, 2, 1, 3)).value)]
               else r.values
  {
    var c := CaptureRule(2, 2, 1, 3);
    var rules := PricedSpec().captures;
    assert rules == [c] && rules[..|rules| - 1] == [] && rules[|rules| - 1] == c;
    assert Filled(r, [], pricing) == r.values;
  }

  lemma PurchaseFinal()
    ensures SourcesResolve(PricedSpec(), SHOP, Candidate(Blank), {PRODUCT, LINE})
    ensures Captured(PricedSpec(), SHOP, Candidate(Blank), {PRODUCT, LINE}) == Candidate(Money(5))
  {
    hide Fill;
    var spec := PricedSpec();
    var m := Candidate(Blank);
    PricedFields();
    var c := spec.captures[0];
    assert PriceOf(spec, SHOP, m, Line(Blank), c) == Some(5);
    PurchaseFills(Product(), Prices(spec, SHOP, m, Product()));
    PurchaseFills(Line(Blank), Prices(spec, SHOP, m, Line(Blank)));
    FillKeeps(spec, Product(), Prices(spec, SHOP, m, Product()));
    FillKeeps(spec, Line(Blank), Prices(spec, SHOP, m, Line(Blank)));
    assert Line(Blank).values[3 := Money(5)] == Line(Money(5)).values;
  }

  lemma FillKeeps(spec: Spec, r: RawRecord, pricing: Pricing)
    ensures var q := Fill(spec, r, pricing);
            q.scope == r.scope && q.id == r.id && q.table == r.table
  {
  }

  lemma ProductOk()
    ensures RowOk(PricedSpec(), SHOP, {PRODUCT, LINE}, Product())
    ensures Normal(PricedSpec(), Product()) == Product()
  {
    hide FindTable, FindField;
    PricedFields();
    var p := ProductTable();
    var values := Product().values;
    assert KnownField(p.fields, p.fields[0].id);
    assert NormalValues(p.fields, values).Keys == values.Keys;
    assert FieldOk(PricedSpec(), SHOP, {PRODUCT, LINE}, 1, p.fields[0], values[1]);
  }

  lemma LineOk()
    ensures RowOk(PricedSpec(), SHOP, {PRODUCT, LINE}, Line(Money(5)))
    ensures Normal(PricedSpec(), Line(Money(5))) == Line(Money(5))
  {
    hide FindTable, FindField, FieldOk;
    PricedFields();
    var l := LineTable();
    var values := Line(Money(5)).values;
    LineFieldsOk();
    assert KnownField(l.fields, l.fields[0].id) && KnownField(l.fields, l.fields[1].id);
    var n := NormalValues(l.fields, values);
    assert l.fields[0].id in n && l.fields[1].id in n;
    assert n.Keys == values.Keys;
  }

  lemma LineFieldsOk()
    ensures forall f :: f in LineTable().fields ==>
              FieldOk(PricedSpec(), SHOP, {PRODUCT, LINE}, 2, f, Get(Line(Money(5)).values, f.id))
  {
  }

  lemma PurchaseGraph()
    ensures GraphOk(PricedSpec(), SHOP, Candidate(Money(5)))
    ensures NormalFacts(PricedSpec(), Candidate(Money(5))) == Candidate(Money(5))
  {
    hide RowOk, Normal;
    ProductOk();
    LineOk();
    assert Candidate(Money(5)).Keys == {PRODUCT, LINE};
  }

  lemma PurchaseSize()
    ensures |RowsOf(Candidate(Money(5)))| == 2 && Fits(RowsOf(Candidate(Money(5))))
  {
    var m := Candidate(Money(5));
    assert m.Keys == {PRODUCT, LINE};
    var k := LeastKey(m.Keys);
    assert k == PRODUCT by {
      assert KeyLeq(k, PRODUCT);
    }
    assert m.Keys - {PRODUCT} == {LINE};
    assert LeastKey({LINE}) == LINE;
    assert {LINE} - {LINE} == {};
    assert Listing({LINE}, m) == [m[LINE]];
    var rows := RowsOf(m);
    assert rows == [m[PRODUCT], m[LINE]];
    assert rows[1..] == [m[LINE]] && rows[1..][1..] == [];
    ProductSize();
    LineSize();
  }

  lemma ProductSize()
    ensures RecordBytes(Product()) <= 1_000 && RecordNodes(Product()) <= 100
  {
    var r := Product();
    assert r.values.Keys == {1} && Smallest({1}) == 1 && {1} - {1} == {};
    assert EntriesBytes({1}, r.values) == IdBytes(1) + 2 + ValueBytes(Money(5));
  }

  lemma LineSize()
    ensures RecordBytes(Line(Money(5))) <= 1_000 && RecordNodes(Line(Money(5))) <= 100
  {
    var r := Line(Money(5));
    assert r.values.Keys == {2, 3} && Smallest({2, 3}) == 2 && {2, 3} - {2} == {3};
    assert Smallest({3}) == 3 && {3} - {3} == {};
    assert EntriesBytes({3}, r.values) == IdBytes(3) + 2 + ValueBytes(Money(5));
    assert EntriesBytes({2, 3}, r.values) == IdBytes(2) + 2 + ValueBytes(r.values[2]) + EntriesBytes({3}, r.values);
  }

  /**
   Soundness is not enough in general: under a checked definition, this purchase is sound, and is
   rejected because the zero that stands in for its price breaks the constraint on that price.
   */
  lemma SoundBatchRejected()
    ensures Checked(PricedSpec()) && CheckedRecords(PricedSpec(), SHOP, [])
    ensures Sound(PricedSpec(), SHOP, [], Purchase())
    ensures !Admits(PricedSpec(), SHOP, [], Purchase())
  {
    hide Checked, CheckedRecords, ValidRows, Fits, EditsOk, SourcesResolve, Captured, Edited, Listing, NormalFacts, Inserted, GraphOk, AsMap;
    var spec := PricedSpec();
    PricedSpecChecked();
    EmptyChecked(spec, SHOP);
    PurchaseEdits();
    PurchaseFinal();
    PurchaseGraph();
    PurchaseSize();
    RowsOfValid(spec, SHOP, Candidate(Money(5)));
    assert !ConstraintsAccept(spec, spec.captures[0].lineTable, spec.captures[0].capturedPrice, Money(0)) by {
      assert spec.constraints[0].table == 2;
    }
    assert Purchase()[1].Insert?;
  }
}
