/**
 A roll-up that is not conserved, in an application the kernel accepts: orders look their amount up
 through the very link that is moved, so moving the only order changes the sum over all customers.
 */
module RetargetExample {
  import opened Wrappers
  import opened Sorting
  import opened AppSpec
  import opened Decimals
  import opened Records
  import opened Facts
  import opened Relations
  import opened RelationRuns
  import opened Formulas
  import opened FormulaProofs
  import opened Rollups
  import opened Retargeting

  const ORDERS := 1
  const CUSTOMERS := 2
  const LINK := 3
  const RATE := 4
  const PLACE := Scope(0, 0)

  function Orders(): Table {
    Table(ORDERS, [Field(LINK, true, RefType(CUSTOMERS))])
  }

  function Customers(): Table {
    Table(CUSTOMERS, [Field(RATE, true, MoneyType)])
  }

  function Trade(): Spec {
    Spec(2, 0, [Orders(), Customers()], [], [], [], [], [])
  }

  /** The sum, over the orders of a customer, of the rate of the customer each of them is linked to. */
  function Rated(): Expression {
    Sum(ORDERS, LINK, Lookup(LINK, RATE))
  }

  function Formula(): FormulaKey {
    FormulaKey(CUSTOMERS, "rated")
  }

  function FormulaSet(): CheckedFormulas {
    CheckedFormulas(map[Formula() := Rated()], map[Formula() := MoneyKind], Limits(256, 24, 1_024), ShapeOf(Trade()))
  }

  function Order(customer: RecordId): RawRecord {
    RawRecord(PLACE, 1, ORDERS, map[LINK := Ref(RecordRef(PLACE, CUSTOMERS, customer))])
  }

  function Customer(id: RecordId, rate: i64): RawRecord {
    RawRecord(PLACE, id, CUSTOMERS, map[RATE := Money(rate)])
  }

  function Store(customer: RecordId): seq<RawRecord> {
    [Order(customer), Customer(1, 5), Customer(2, 7)]
  }

  function Trading(customer: RecordId): Env {
    Env(FormulaSet(), Store(customer), OutputPolicy(true, _ => true, _ => true, (_, _) => true))
  }

  /** The move, as a batch. */
  function Move(): seq<Change> {
    [Replace(Order(2))]
  }

  // ------------------------------------------------------------ an accepted definition and formula

  lemma TradeFields()
    ensures FindTable(Trade().tables, ORDERS) == Some(Orders()) && FindTable(Trade().tables, CUSTOMERS) == Some(Customers())
    ensures FieldOf(Trade(), ORDERS, LINK) == Some(Field(LINK, true, RefType(CUSTOMERS)))
    ensures FieldOf(Trade(), CUSTOMERS, RATE) == Some(Field(RATE, true, MoneyType))
  {
    var t := Trade().tables;
    assert t[1..][0] == Customers();
    assert FindTable(t[1..], CUSTOMERS) == Some(Customers());
  }

  lemma TradeTables()
    ensures TablesFit([Orders(), Customers()])
  {
    hide FindTable;
    TradeFields();
    var o, c := Orders(), Customers();
    var t := [o, c];
    assert t[1..] == [c];
    assert FieldCount(t[1..]) == 1;
    assert StrictlySorted(TableKey, t);
    assert StrictlySorted(FieldKey, o.fields);
    assert StrictlySorted(FieldKey, c.fields);
    assert forall u :: u in t ==> u == o || u == c;
    assert forall f :: f in o.fields ==> f.id == LINK && f.fieldType == RefType(CUSTOMERS);
    assert forall f :: f in c.fields ==> f.id == RATE && f.fieldType == MoneyType;
  }

  lemma TradeChecked()
    ensures Checked(Trade())
  {
    hide TablesFit;
    TradeTables();
  }

  lemma TradeShape()
    ensures RefTarget(ShapeOf(Trade()), ORDERS, LINK) == Ok(CUSTOMERS)
    ensures FieldKind(ShapeOf(Trade()), CUSTOMERS, RATE) == Ok(MoneyKind)
  {
    hide FieldOf, FindTable;
    TradeFields();
    var spec := Trade();
    assert spec.tables[0].id == ORDERS && spec.tables[0].fields[0].id == LINK;
    assert spec.tables[1].id == CUSTOMERS && spec.tables[1].fields[0].id == RATE;
    assert Key(ORDERS, LINK) in FieldKeys(spec) && Key(CUSTOMERS, RATE) in FieldKeys(spec);
  }

  lemma FormulaAccepted()
    ensures Accepted(FormulaSet())
  {
    hide ShapeOf;
    TradeShape();
    var fs := FormulaSet();
    var visiting := {Formula()};
    assert Check(fs, ORDERS, Lookup(LINK, RATE), 2, 1, visiting) == (Ok(MoneyKind), 2);
    assert Check(fs, CUSTOMERS, Rated(), 1, 0, visiting).0 == Ok(MoneyKind);
  }

  // ------------------------------------------------------------ checked facts before and after

  lemma StoreKeys(customer: RecordId)
    ensures KeysOf(Store(customer)) == {Key(ORDERS, 1), Key(CUSTOMERS, 1), Key(CUSTOMERS, 2)}
    ensures StrictlySorted(RecordKey, Store(customer))
  {
    var rows := Store(customer);
    assert RecordKey(rows[0]) == Key(ORDERS, 1) && RecordKey(rows[1]) == Key(CUSTOMERS, 1) && RecordKey(rows[2]) == Key(CUSTOMERS, 2);
  }

  lemma OrderOk(customer: RecordId)
    requires customer == 1 || customer == 2
    ensures RowOk(Trade(), PLACE, {Key(ORDERS, 1), Key(CUSTOMERS, 1), Key(CUSTOMERS, 2)}, Order(customer))
    ensures Normal(Trade(), Order(customer)) == Order(customer)
  {
    hide FindTable, FieldOf;
    TradeFields();
    var f := Orders().fields;
    assert KnownField(f, f[0].id);
    assert NormalValues(f, Order(customer).values).Keys == Order(customer).values.Keys;
  }

  lemma CustomerOk(id: RecordId, rate: i64)
    ensures RowOk(Trade(), PLACE, {Key(ORDERS, 1), Key(CUSTOMERS, 1), Key(CUSTOMERS, 2)}, Customer(id, rate))
    ensures Normal(Trade(), Customer(id, rate)) == Customer(id, rate)
  {
    hide FindTable, FieldOf;
    TradeFields();
    var f := Customers().fields;
    assert KnownField(f, f[0].id);
    assert NormalValues(f, Customer(id, rate).values).Keys == Customer(id, rate).values.Keys;
  }

  lemma RowSize(r: RawRecord, field: FieldId)
    requires r.values.Keys == {field} && ValueBytes(r.values[field]) <= 200 && ValueNodes(r.values[field]) <= 15
    requires IdBytes(r.scope.tenant) <= 7 && IdBytes(r.scope.app) <= 7 && IdBytes(r.id) <= 7 && IdBytes(r.table) <= 7 && IdBytes(field) <= 7
    ensures RecordBytes(r) <= 1_000 && RecordNodes(r) <= 100
  {
    hide ValueBytes, ValueNodes, IdBytes;
    assert Smallest({field}) == field && {field} - {field} == {};
    assert EntriesBytes({field}, r.values) == IdBytes(field) + 2 + ValueBytes(r.values[field]);
    assert EntriesNodes({field}, r.values) == 1 + ValueNodes(r.values[field]);
  }

  lemma StoreFits(customer: RecordId)
    requires customer == 1 || customer == 2
    ensures Fits(Store(customer))
  {
    hide RecordBytes, RecordNodes;
    var rows := Store(customer);
    RowSize(rows[0], LINK);
    RowSize(rows[1], RATE);
    RowSize(rows[2], RATE);
    assert rows[1..][0] == rows[1] && rows[1..][1..] == [rows[2]] && [rows[2]][1..] == [];
  }

  lemma StoreChecked(customer: RecordId)
    requires customer == 1 || customer == 2
    ensures CheckedRecords(Trade(), PLACE, Store(customer))
  {
    hide RowOk, Normal, Fits, KeysOf, StrictlySorted, Sort;
    var rows := Store(customer);
    StoreKeys(customer);
    OrderOk(customer);
    CustomerOk(1, 5);
    CustomerOk(2, 7);
    StoreFits(customer);
    SortFixed(RecordKey, rows);
    SortStrict(RecordKey, rows);
    assert forall i :: 0 <= i < |rows| ==> Normal(Trade(), rows[i]) == rows[i];
    assert NormalRows(Trade(), rows) == rows;
  }

  // ------------------------------------------------------------ the move

  lemma MoveEdits()
    ensures EditsOk(Trade(), AsMap(Store(1)), Move())
    ensures Edited(AsMap(Store(1)), Move()) == AsMap(Store(2))
    ensures Inserted(Move()) == {}
  {
    hide KeysOf, StrictlySorted;
    StoreKeys(1);
    StoreKeys(2);
    StrictDistinct(Store(1));
    StrictDistinct(Store(2));
    AsMapRows(Store(1));
    AsMapRows(Store(2));
    var a, b := AsMap(Store(1)), AsMap(Store(2));
    assert a[RecordKey(Store(1)[1])] == Store(1)[1] && a[RecordKey(Store(1)[2])] == Store(1)[2];
    assert b[RecordKey(Store(2)[0])] == Store(2)[0] && b[RecordKey(Store(2)[1])] == Store(2)[1] && b[RecordKey(Store(2)[2])] == Store(2)[2];
    assert Move()[..0] == [];
    assert Edited(a, Move()) == a[Key(ORDERS, 1) := Order(2)];
    assert a[Key(ORDERS, 1) := Order(2)] == b;
  }

  lemma StrictDistinct(rows: seq<RawRecord>)
    requires StrictlySorted(RecordKey, rows)
    ensures DistinctKeys(RecordKey, rows)
  {
  }

  /** The store accepts the move and publishes the second list. */
  lemma MoveAdmitted()
    ensures Admits(Trade(), PLACE, Store(1), Move()) && After(Trade(), PLACE, Store(1), Move()) == Store(2)
  {
    hide ValidRows, Fits, EditsOk, Edited, Inserted, AsMap, Sort, Listing, StrictlySorted, KeysOf;
    MoveEdits();
    StoreKeys(2);
    StoreChecked(2);
    var e := AsMap(Store(2));
    assert Captured(Trade(), PLACE, e, {}) == e;
    RowsOfMap(Store(2));
    CheckedParts(Store(2));
    CheckedFixed(Trade(), PLACE, Store(2));
    NothingCaptured();
  }

  lemma NothingCaptured()
    ensures ZeroAdmitted(Trade(), Move()) && forall m: FactMap :: SourcesResolve(Trade(), PLACE, m, {})
  {
  }

  lemma CheckedParts(rows: seq<RawRecord>)
    requires CheckedRecords(Trade(), PLACE, rows)
    ensures ValidRows(Trade(), PLACE, rows)
  {
  }

  // ------------------------------------------------------------ the totals

  lemma TradingServes(customer: RecordId)
    requires customer == 1 || customer == 2
    ensures Serves(Trading(customer))
  {
    hide CheckedRecords, ShapeOf;
    StoreChecked(customer);
    CheckedServes(Trading(customer), Trade(), PLACE);
  }

  lemma StoreFind(customer: RecordId)
    ensures FindRow(Store(customer), Key(CUSTOMERS, 1)) == Some(Customer(1, 5))
    ensures FindRow(Store(customer), Key(CUSTOMERS, 2)) == Some(Customer(2, 7))
  {
    var rows := Store(customer);
    assert rows[1..][0] == Customer(1, 5) && rows[1..][1..][0] == Customer(2, 7);
    assert FindRow(rows[1..], Key(CUSTOMERS, 2)) == FindRow(rows[1..][1..], Key(CUSTOMERS, 2));
  }

  lemma OrderWorth(customer: RecordId)
    requires customer == 1 || customer == 2
    ensures OrZero(Denote(FormulaSet(), Store(customer), Order(customer), Lookup(LINK, RATE), 23)) == if customer == 1 then 5 else 7
  {
    hide FindRow, ShapeOf;
    StoreFind(customer);
  }

  /** The sum of the formula over all customers. */
  ghost function Sales(customer: RecordId): int {
    GrandTotal(FormulaSet(), Store(customer), CUSTOMERS, ORDERS, LINK, Lookup(LINK, RATE), 23, Store(customer))
  }

  lemma SalesAre(customer: RecordId)
    requires customer == 1 || customer == 2
    ensures Sales(customer) == if customer == 1 then 5 else 7
  {
    hide GrandTotal, Denote, Serves, ShapeOf;
    var env, rows := Trading(customer), Store(customer);
    TradeShape();
    TradingServes(customer);
    OrderWorth(customer);
    RollupConserved(env, CUSTOMERS, ORDERS, LINK, Lookup(LINK, RATE), 23);
    assert rows[..2][..1] == rows[..1] && rows[..2][1] == rows[1] && rows[..1][0] == rows[0] && rows[..1][..0] == [];
    assert LinkedTotal(env.fs, rows, ORDERS, LINK, Lookup(LINK, RATE), 23, rows[..1])
           == OrZero(Denote(env.fs, rows, rows[0], Lookup(LINK, RATE), 23));
    assert LinkedTotal(env.fs, rows, ORDERS, LINK, Lookup(LINK, RATE), 23, rows[..2])
           == LinkedTotal(env.fs, rows, ORDERS, LINK, Lookup(LINK, RATE), 23, rows[..1]);
  }

  /**
   Conservation fails on input the kernel accepts: a checked definition, an accepted formula, checked
   facts, and a batch that is admitted and moves one order from one customer to the other.
   */
  lemma RetargetNotConserved()
    ensures Checked(Trade()) && Accepted(FormulaSet()) && FormulaSet().shape == ShapeOf(Trade())
    ensures FormulaSet().definitions[Formula()] == Rated()
    ensures CheckedRecords(Trade(), PLACE, Store(1)) && CheckedRecords(Trade(), PLACE, Store(2))
    ensures Admits(Trade(), PLACE, Store(1), Move()) && After(Trade(), PLACE, Store(1), Move()) == Store(2)
    ensures OnlyMoved(Store(1), Store(2), ORDERS, LINK, 0)
    ensures Sales(1) == 5 && Sales(2) == 7
  {
    hide Checked, Accepted, CheckedRecords, Admits, Sales, ShapeOf;
    TradeChecked();
    FormulaAccepted();
    StoreChecked(1);
    StoreChecked(2);
    MoveAdmitted();
    SalesAre(1);
    SalesAre(2);
  }
}
