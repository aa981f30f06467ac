/**
 Batches in plain terms: which changes read well against the rows there are, and which rows a batch
 leaves, as a relation that says nothing of how the store gets there. Prices are read in the outcome
 itself. The store accepts exactly the batches that have a valid outcome, and publishes it.
 */
module PlainBatches {
  import opened Wrappers
  import opened Sorting
  import opened AppSpec
  import opened Records
  import opened Facts
  import opened Relations
  import opened RelationRuns
  import opened PlainFacts

  predicate Addresses(c: Change, table: TableId, id: RecordId) {
    match c
    case Insert(r) => r.table == table && r.id == id
    case Replace(r) => r.table == table && r.id == id
    case Delete(t, i) => t == table && i == id
  }

  /** The captured price and the product reference of a line stay as they are. */
  ghost predicate KeepsPrices(spec: Spec, was: RawRecord, now: RawRecord) {
    forall c :: c in spec.captures && c.lineTable == now.table ==>
      SameEntry(was.values, now.values, c.capturedPrice) && SameEntry(was.values, now.values, c.productRef)
  }

  /** An inserted row is new and brings no captured price; a replaced one exists and keeps its captures; a deleted one exists. */
  ghost predicate ChangeReads(spec: Spec, rows: seq<RawRecord>, c: Change) {
    match c
    case Insert(r) =>
      && !HasRow(rows, r.table, r.id)
      && forall rule :: rule in spec.captures && rule.lineTable == r.table ==> !Present(r.values, rule.capturedPrice)
    case Replace(r) => exists q :: q in rows && q.table == r.table && q.id == r.id && KeepsPrices(spec, q, r)
    case Delete(table, id) => HasRow(rows, table, id)
  }

  ghost predicate BatchReads(spec: Spec, rows: seq<RawRecord>, changes: seq<Change>) {
    && (forall i, j, t, id :: 0 <= i < j < |changes| && Addresses(changes[i], t, id) ==> !Addresses(changes[j], t, id))
    && (forall c :: c in changes ==> ChangeReads(spec, rows, c))
  }

  /** Zero obeys every constraint on a captured price of an inserted line. */
  ghost predicate ZeroObeys(spec: Spec, changes: seq<Change>) {
    forall change, rule, c :: (change in changes && change.Insert? && rule in spec.captures && rule.lineTable == change.row.table
                               && c in spec.constraints && c.table == change.row.table && c.field == rule.capturedPrice)
                              ==> Obeys(c.constraint, Money(0))
  }

  // ------------------------------------------------------------ outcomes

  /** Line `q` paid for rule `rule` what its product costs among `next`. */
  ghost predicate Pays(spec: Spec, scope: Scope, next: seq<RawRecord>, q: RawRecord, rule: CaptureRule) {
    && rule.productRef in q.values && q.values[rule.productRef].Ref?
    && var ref := q.values[rule.productRef].ref;
       && ref.scope == scope
       && (exists f :: Declares(spec, q.table, f) && f.id == rule.productRef && f.fieldType == RefType(ref.table))
       && rule.capturedPrice in q.values && q.values[rule.capturedPrice].Money?
       && exists p :: p in next && p.table == ref.table && p.id == ref.record
                      && rule.productPrice in p.values && p.values[rule.productPrice] == q.values[rule.capturedPrice]
  }

  /** Row `q` is inserted row `r` with every captured price paid, and nothing else changed. */
  ghost predicate InsertedAs(spec: Spec, scope: Scope, next: seq<RawRecord>, r: RawRecord, q: RawRecord) {
    && q.scope == r.scope && q.table == r.table && q.id == r.id
    && (forall rule :: rule in spec.captures && rule.lineTable == r.table ==> Pays(spec, scope, next, q, rule))
    && (forall f :: (forall rule :: rule in spec.captures && rule.lineTable == r.table ==> rule.capturedPrice != f)
          ==> SameEntry(r.values, q.values, f))
  }

  /** `next` is what the batch leaves of `rows`. */
  ghost predicate Outcome(spec: Spec, scope: Scope, rows: seq<RawRecord>, changes: seq<Change>, next: seq<RawRecord>) {
    && DistinctKeys(RecordKey, next)
    && (forall t, id :: HasRow(next, t, id) <==>
          || (exists c :: c in changes && !c.Delete? && Addresses(c, t, id))
          || (HasRow(rows, t, id) && forall c :: c in changes ==> !Addresses(c, t, id)))
    && (forall q :: q in next && (forall c :: c in changes ==> !Addresses(c, q.table, q.id)) ==> q in rows)
    && (forall q, c :: q in next && c in changes && c.Replace? && Addresses(c, q.table, q.id) ==> q == c.row)
    && (forall q, c :: q in next && c in changes && c.Insert? && Addresses(c, q.table, q.id) ==> InsertedAs(spec, scope, next, c.row, q))
  }

  // ------------------------------------------------------------ reading well

  lemma AddressesKey(c: Change, table: TableId, id: RecordId)
    ensures Addresses(c, table, id) <==> ChangeKey(c) == Key(table, id)
  {
  }

  lemma DestinationMeans(spec: Spec, table: TableId, f: FieldId)
    ensures IsCaptured(spec, table, f) <==> exists rule :: rule in spec.captures && rule.lineTable == table && rule.capturedPrice == f
  {
    if IsCaptured(spec, table, f) {
      var i :| 0 <= i < |spec.captures| && spec.captures[i].lineTable == table && spec.captures[i].capturedPrice == f;
      assert spec.captures[i] in spec.captures;
    }
    if exists rule :: rule in spec.captures && rule.lineTable == table && rule.capturedPrice == f {
      var rule :| rule in spec.captures && rule.lineTable == table && rule.capturedPrice == f;
      var i :| 0 <= i < |spec.captures| && spec.captures[i] == rule;
    }
  }

  lemma FreeMeans(spec: Spec, r: RawRecord)
    ensures CaptureFree(spec, r) <==>
              forall rule :: rule in spec.captures && rule.lineTable == r.table ==> !Present(r.values, rule.capturedPrice)
  {
    if CaptureFree(spec, r) {
      forall rule | rule in spec.captures && rule.lineTable == r.table
        ensures !Present(r.values, rule.capturedPrice)
      {
        var i :| 0 <= i < |spec.captures| && spec.captures[i] == rule;
        assert Missing(Get(r.values, spec.captures[i].capturedPrice));
      }
    }
    if forall rule :: rule in spec.captures && rule.lineTable == r.table ==> !Present(r.values, rule.capturedPrice) {
      forall i | 0 <= i < |spec.captures| && spec.captures[i].lineTable == r.table
        ensures Missing(Get(r.values, spec.captures[i].capturedPrice))
      {
        assert spec.captures[i] in spec.captures;
      }
    }
  }

  lemma LookupSame(a: Values, b: Values, f: FieldId)
    ensures Lookup(a, f) == Lookup(b, f) <==> SameEntry(a, b, f)
  {
  }

  lemma KeptMeans(spec: Spec, was: RawRecord, r: RawRecord)
    ensures CaptureKept(spec, was, r) <==> KeepsPrices(spec, was, r)
  {
    hide Lookup, SameEntry;
    forall i | 0 <= i < |spec.captures|
      ensures Lookup(was.values, spec.captures[i].capturedPrice) == Lookup(r.values, spec.captures[i].capturedPrice)
              <==> SameEntry(was.values, r.values, spec.captures[i].capturedPrice)
      ensures Lookup(was.values, spec.captures[i].productRef) == Lookup(r.values, spec.captures[i].productRef)
              <==> SameEntry(was.values, r.values, spec.captures[i].productRef)
    {
      LookupSame(was.values, r.values, spec.captures[i].capturedPrice);
      LookupSame(was.values, r.values, spec.captures[i].productRef);
    }
    if CaptureKept(spec, was, r) {
      forall c | c in spec.captures && c.lineTable == r.table
        ensures SameEntry(was.values, r.values, c.capturedPrice) && SameEntry(was.values, r.values, c.productRef)
      {
        var i :| 0 <= i < |spec.captures| && spec.captures[i] == c;
      }
    }
    if KeepsPrices(spec, was, r) {
      forall i | 0 <= i < |spec.captures| && spec.captures[i].lineTable == r.table
        ensures SameEntry(was.values, r.values, spec.captures[i].capturedPrice) && SameEntry(was.values, r.values, spec.captures[i].productRef)
      {
        assert spec.captures[i] in spec.captures;
      }
    }
  }

  lemma RowInMap(rows: seq<RawRecord>, q: RawRecord)
    requires DistinctKeys(RecordKey, rows) && q in rows
    ensures RecordKey(q) in AsMap(rows) && AsMap(rows)[RecordKey(q)] == q
  {
    AsMapRows(rows);
    var i :| 0 <= i < |rows| && rows[i] == q;
    RowKeyIn(rows, i);
  }

  lemma ChangeMeans(spec: Spec, rows: seq<RawRecord>, c: Change)
    requires DistinctKeys(RecordKey, rows)
    ensures ChangeOk(spec, AsMap(rows), c) <==> ChangeReads(spec, rows, c)
  {
    hide CaptureFree, CaptureKept, KeepsPrices, AsMap, KeysOf;
    AsMapRows(rows);
    match c {
      case Insert(r) =>
        KeyOfRow(rows, r.table, r.id);
        FreeMeans(spec, r);
      case Replace(r) =>
        if ChangeKey(c) in AsMap(rows) {
          AsMapIn(rows, ChangeKey(c));
          KeptMeans(spec, AsMap(rows)[ChangeKey(c)], r);
        }
        if ChangeReads(spec, rows, c) {
          var q :| q in rows && q.table == r.table && q.id == r.id && KeepsPrices(spec, q, r);
          RowInMap(rows, q);
        }
      case Delete(table, id) =>
        KeyOfRow(rows, table, id);
    }
  }

  /** Inserting, replacing and deleting read well exactly as they should against the rows there are. */
  lemma EditsExactly(spec: Spec, rows: seq<RawRecord>, changes: seq<Change>)
    requires DistinctKeys(RecordKey, rows)
    ensures EditsOk(spec, AsMap(rows), changes) <==> BatchReads(spec, rows, changes)
  {
    hide ChangeOk, ChangeReads, AsMap;
    forall i | 0 <= i < |changes|
      ensures ChangeOk(spec, AsMap(rows), changes[i]) <==> ChangeReads(spec, rows, changes[i])
    {
      ChangeMeans(spec, rows, changes[i]);
    }
    if EditsOk(spec, AsMap(rows), changes) {
      forall i, j, t, id | 0 <= i < j < |changes| && Addresses(changes[i], t, id)
        ensures !Addresses(changes[j], t, id)
      {
        AddressesKey(changes[i], t, id);
        AddressesKey(changes[j], t, id);
        assert ChangeKey(changes[i]) != ChangeKey(changes[j]);
      }
    }
    if BatchReads(spec, rows, changes) {
      forall i, j | 0 <= i < j < |changes|
        ensures ChangeKey(changes[i]) != ChangeKey(changes[j])
      {
        var k := ChangeKey(changes[i]);
        AddressesKey(changes[i], k.table, k.id);
        AddressesKey(changes[j], k.table, k.id);
      }
      forall i | 0 <= i < |changes|
        ensures ChangeReads(spec, rows, changes[i])
      {
        assert changes[i] in changes;
      }
    }
  }

  lemma ZeroMeans(spec: Spec, changes: seq<Change>)
    ensures ZeroAdmitted(spec, changes) <==> ZeroObeys(spec, changes)
  {
    hide ConstraintsAccept, Obeys;
    forall j | 0 <= j < |spec.captures|
      ensures ConstraintsAccept(spec, spec.captures[j].lineTable, spec.captures[j].capturedPrice, Money(0)) <==>
                forall c :: c in spec.constraints && c.table == spec.captures[j].lineTable && c.field == spec.captures[j].capturedPrice
                  ==> Obeys(c.constraint, Money(0))
    {
      ConstraintsMean(spec, spec.captures[j].lineTable, spec.captures[j].capturedPrice, Money(0));
    }
    if ZeroAdmitted(spec, changes) {
      forall change, rule, c | change in changes && change.Insert? && rule in spec.captures && rule.lineTable == change.row.table
                               && c in spec.constraints && c.table == change.row.table && c.field == rule.capturedPrice
        ensures Obeys(c.constraint, Money(0))
      {
        var i :| 0 <= i < |changes| && changes[i] == change;
        var j :| 0 <= j < |spec.captures| && spec.captures[j] == rule;
        assert ConstraintsAccept(spec, spec.captures[j].lineTable, spec.captures[j].capturedPrice, Money(0));
      }
    }
    if ZeroObeys(spec, changes) {
      forall i, j | 0 <= i < |changes| && changes[i].Insert? && 0 <= j < |spec.captures| && spec.captures[j].lineTable == changes[i].row.table
        ensures ConstraintsAccept(spec, spec.captures[j].lineTable, spec.captures[j].capturedPrice, Money(0))
      {
        assert changes[i] in changes && spec.captures[j] in spec.captures;
      }
    }
  }

  // ------------------------------------------------------------ the store's own facts are an outcome, and the only one

  lemma TypeDeclared(spec: Spec, table: TableId, field: FieldId, t: FieldType)
    requires Checked(spec)
    ensures TypeOf(spec, table, field) == Some(t) <==> exists f :: Declares(spec, table, f) && f.id == field && f.fieldType == t
  {
    hide Checked, Declares;
    if TypeOf(spec, table, field) == Some(t) {
      var f := FieldOf(spec, table, field).value;
      FieldOfId(spec, table, field);
      FieldFound(spec, table, f);
    }
    if exists f :: Declares(spec, table, f) && f.id == field && f.fieldType == t {
      var f :| Declares(spec, table, f) && f.id == field && f.fieldType == t;
      FieldFound(spec, table, f);
    }
  }

  lemma FieldOfId(spec: Spec, table: TableId, field: FieldId)
    ensures FieldOf(spec, table, field).Some? ==> FieldOf(spec, table, field).value.id == field
  {
  }

  lemma PriceMeans(spec: Spec, scope: Scope, m: FactMap, r: RawRecord, c: CaptureRule, price: i64)
    ensures PriceOf(spec, scope, m, r, c) == Some(price) <==>
              && c.productRef in r.values && r.values[c.productRef].Ref?
              && var ref := r.values[c.productRef].ref;
                 && ref.scope == scope && TypeOf(spec, r.table, c.productRef) == Some(RefType(ref.table))
                 && Key(ref.table, ref.record) in m
                 && c.productPrice in m[Key(ref.table, ref.record)].values
                 && m[Key(ref.table, ref.record)].values[c.productPrice] == Money(price)
  {
  }

  /** Entries outside the destinations reach the final facts as they were edited. */
  lemma FinalEntry(spec: Spec, scope: Scope, e: FactMap, inserted: set<Key>, k: Key, f: FieldId)
    requires Checked(spec) && Keyed(e) && SourcesResolve(spec, scope, e, inserted) && k in e
    requires k !in inserted || !IsCaptured(spec, k.table, f)
    ensures SameEntry(e[k].values, Captured(spec, scope, e, inserted)[k].values, f)
  {
    hide Checked, Filled, IsCaptured, Priced, Lookup, SameEntry;
    if k in inserted {
      var r := e[k];
      FilledTwice(spec, r, Prices(spec, scope, e, r));
      LookupSame(r.values, Fill(spec, r, Prices(spec, scope, e, r)).values, f);
    } else {
      LookupSame(e[k].values, e[k].values, f);
    }
  }

  /** A filled line pays what its products cost in the final facts. */
  lemma FilledPays(spec: Spec, scope: Scope, e: FactMap, inserted: set<Key>, k: Key, rule: CaptureRule)
    requires Checked(spec) && Keyed(e) && SourcesResolve(spec, scope, e, inserted) && k in e && k in inserted
    requires rule in spec.captures && rule.lineTable == k.table
    ensures var f := Captured(spec, scope, e, inserted);
            Pays(spec, scope, RowsOf(f), f[k], rule)
  {
    hide Checked, Filled, IsCaptured, Listing, TypeOf, Declares, CaptureChecked;
    var f := Captured(spec, scope, e, inserted);
    var r := e[k];
    var pricing := Prices(spec, scope, e, r);
    assert Priced(r, spec.captures, pricing);
    var i :| 0 <= i < |spec.captures| && spec.captures[i] == rule;
    var price := pricing(rule).value;
    PriceMeans(spec, scope, e, r, rule, price);
    CapturePath(spec, rule);
    FilledPrice(spec, r, pricing, rule);
    FilledTwice(spec, r, pricing);
    var ref := r.values[rule.productRef].ref;
    var product := Key(ref.table, ref.record);
    TypeDeclared(spec, r.table, rule.productRef, RefType(ref.table));
    FinalEntry(spec, scope, e, inserted, product, rule.productPrice);
    FinalEntry(spec, scope, e, inserted, k, rule.productRef);
    DestinationHeld(spec, r, rule);
    FilledKeyed(spec, scope, e, inserted);
    ListingRows(f.Keys, f);
    assert f[product] in RowsOf(f);
  }

  lemma DestinationHeld(spec: Spec, r: RawRecord, rule: CaptureRule)
    requires rule in spec.captures && rule.lineTable == r.table
    ensures IsCaptured(spec, r.table, rule.capturedPrice)
  {
    DestinationMeans(spec, r.table, rule.capturedPrice);
  }

  lemma FilledInserts(spec: Spec, scope: Scope, e: FactMap, inserted: set<Key>, k: Key)
    requires Checked(spec) && Keyed(e) && SourcesResolve(spec, scope, e, inserted) && k in e && k in inserted
    ensures var f := Captured(spec, scope, e, inserted);
            InsertedAs(spec, scope, RowsOf(f), e[k], f[k])
  {
    hide Checked, Filled, IsCaptured, Pays, Listing, SameEntry;
    var f := Captured(spec, scope, e, inserted);
    forall rule | rule in spec.captures && rule.lineTable == k.table
      ensures Pays(spec, scope, RowsOf(f), f[k], rule)
    {
      FilledPays(spec, scope, e, inserted, k, rule);
    }
    forall g | forall rule :: rule in spec.captures && rule.lineTable == k.table ==> rule.capturedPrice != g
      ensures SameEntry(e[k].values, f[k].values, g)
    {
      DestinationMeans(spec, k.table, g);
      FinalEntry(spec, scope, e, inserted, k, g);
    }
  }

  /** The change at an identity, if any, is the only one there. */
  lemma OneChange(changes: seq<Change>, c: Change, d: Change)
    requires DistinctKeys(ChangeKey, changes) && c in changes && d in changes && ChangeKey(c) == ChangeKey(d)
    ensures c == d
  {
    var i :| 0 <= i < |changes| && changes[i] == c;
    var j :| 0 <= j < |changes| && changes[j] == d;
  }

  /** What the edits hold at an identity that a change addresses, and at one that none does. */
  lemma EditedWhere(rows: seq<RawRecord>, changes: seq<Change>, k: Key)
    requires DistinctKeys(ChangeKey, changes)
    ensures var e := Edited(AsMap(rows), changes);
            && (forall c :: c in changes && Addresses(c, k.table, k.id) ==>
                  if c.Delete? then k !in e
                  else k in e && e[k] == c.row && (k in Inserted(changes) <==> c.Insert?))
            && ((forall c :: c in changes ==> !Addresses(c, k.table, k.id)) ==>
                  && k !in Inserted(changes) && (k in e <==> k in AsMap(rows)) && (k in e ==> e[k] == AsMap(rows)[k]))
  {
    hide AsMap, Edited;
    var m, e := AsMap(rows), Edited(AsMap(rows), changes);
    EditedReflects(m, changes);
    forall c | c in changes && Addresses(c, k.table, k.id)
      ensures if c.Delete? then k !in e else k in e && e[k] == c.row && (k in Inserted(changes) <==> c.Insert?)
    {
      var i :| 0 <= i < |changes| && changes[i] == c;
      AddressesKey(c, k.table, k.id);
      if k in Inserted(changes) {
        var j :| 0 <= j < |changes| && changes[j].Insert? && ChangeKey(changes[j]) == k;
        OneChange(changes, c, changes[j]);
      }
    }
    if forall c :: c in changes ==> !Addresses(c, k.table, k.id) {
      forall j | 0 <= j < |changes|
        ensures ChangeKey(changes[j]) != k
      {
        assert changes[j] in changes;
        AddressesKey(changes[j], k.table, k.id);
      }
      InsertedTouched(changes, k);
    }
  }

  lemma InsertedTouched(changes: seq<Change>, k: Key)
    ensures k in Inserted(changes) ==> k in Touched(changes)
  {
  }

  /** The store's final facts are an outcome of the batch. */
  lemma FinalIsOutcome(spec: Spec, scope: Scope, rows: seq<RawRecord>, changes: seq<Change>)
    requires Checked(spec) && DistinctKeys(RecordKey, rows)
    requires DistinctKeys(ChangeKey, changes)
    requires SourcesResolve(spec, scope, Edited(AsMap(rows), changes), Inserted(changes))
    ensures Outcome(spec, scope, rows, changes, RowsOf(Final(spec, scope, rows, changes)))
  {
    hide Checked, AsMap, Edited, Captured, Inserted, Listing, InsertedAs, SourcesResolve, KeysOf, Addresses;
    var e := Edited(AsMap(rows), changes);
    var f := Final(spec, scope, rows, changes);
    var next := RowsOf(f);
    AsMapRows(rows);
    EditedKeyed(AsMap(rows), changes);
    FilledKeyed(spec, scope, e, Inserted(changes));
    ListingRows(f.Keys, f);
    RowsOfKeys(f);
    forall t, id
      ensures HasRow(next, t, id) <==>
                || (exists c :: c in changes && !c.Delete? && Addresses(c, t, id))
                || (HasRow(rows, t, id) && forall c :: c in changes ==> !Addresses(c, t, id))
    {
      KeyOfRow(next, t, id);
      KeyOfRow(rows, t, id);
      EditedWhere(rows, changes, Key(t, id));
    }
    forall q | q in next
      ensures RecordKey(q) in f && f[RecordKey(q)] == q
    {
      var i :| 0 <= i < |next| && next[i] == q;
      assert RecordKey(next[i]) in f;
    }
    forall q | q in next && forall c :: c in changes ==> !Addresses(c, q.table, q.id)
      ensures q in rows
    {
      EditedWhere(rows, changes, RecordKey(q));
      FinalElsewhere(spec, scope, e, Inserted(changes), RecordKey(q));
      AsMapIn(rows, RecordKey(q));
    }
    forall q, c | q in next && c in changes && Addresses(c, q.table, q.id)
      ensures c.Replace? ==> q == c.row
      ensures c.Insert? ==> InsertedAs(spec, scope, next, c.row, q)
    {
      EditedWhere(rows, changes, RecordKey(q));
      if c.Replace? {
        FinalElsewhere(spec, scope, e, Inserted(changes), RecordKey(q));
      }
      if c.Insert? {
        FilledInserts(spec, scope, e, Inserted(changes), RecordKey(q));
      }
    }
  }

  lemma FinalElsewhere(spec: Spec, scope: Scope, e: FactMap, inserted: set<Key>, k: Key)
    requires k in e && k !in inserted
    ensures Captured(spec, scope, e, inserted)[k] == e[k]
  {
  }

  /** In an outcome, a row's entry outside the capture destinations is the edited one. */
  lemma OutcomeEntry(spec: Spec, scope: Scope, rows: seq<RawRecord>, changes: seq<Change>, next: seq<RawRecord>, q: RawRecord, f: FieldId)
    requires DistinctKeys(RecordKey, rows) && DistinctKeys(ChangeKey, changes)
    requires Outcome(spec, scope, rows, changes, next) && q in next && !IsCaptured(spec, q.table, f)
    ensures var e := Edited(AsMap(rows), changes);
            RecordKey(q) in e && SameEntry(e[RecordKey(q)].values, q.values, f)
  {
    hide AsMap, Edited, Inserted, KeysOf, IsCaptured, Pays, Addresses, SameEntry;
    var k := RecordKey(q);
    EditedWhere(rows, changes, k);
    DestinationMeans(spec, q.table, f);
    SameSelf(q.values, f);
    if exists c :: c in changes && Addresses(c, q.table, q.id) {
      var c :| c in changes && Addresses(c, q.table, q.id);
      HasItself(next, q);
      if c.Delete? {
        DeletedGoes(spec, scope, rows, changes, next, c, q);
      } else if c.Insert? {
        assert InsertedAs(spec, scope, next, c.row, q);
        AddressesKey(c, q.table, q.id);
      }
    } else {
      RowInMap(rows, q);
    }
  }

  lemma SameSelf(a: Values, f: FieldId)
    ensures SameEntry(a, a, f)
  {
  }

  lemma HasItself(rows: seq<RawRecord>, q: RawRecord)
    requires q in rows
    ensures HasRow(rows, q.table, q.id)
  {
  }

  /** No row of an outcome is addressed by a deletion. */
  lemma DeletedGoes(spec: Spec, scope: Scope, rows: seq<RawRecord>, changes: seq<Change>, next: seq<RawRecord>, c: Change, q: RawRecord)
    requires DistinctKeys(ChangeKey, changes) && Outcome(spec, scope, rows, changes, next)
    requires c in changes && c.Delete? && Addresses(c, q.table, q.id)
    ensures q !in next
  {
    hide InsertedAs;
    if q in next {
      HasItself(next, q);
      var d :| d in changes && !d.Delete? && Addresses(d, q.table, q.id);
      AddressesKey(c, q.table, q.id);
      AddressesKey(d, q.table, q.id);
      OneChange(changes, c, d);
    }
  }

  /** What an outcome holds on an inserted line is what the store captures there. */
  lemma OutcomePrice(spec: Spec, scope: Scope, rows: seq<RawRecord>, changes: seq<Change>, next: seq<RawRecord>, q: RawRecord, c: Change, rule: CaptureRule)
    requires Checked(spec) && DistinctKeys(RecordKey, rows) && DistinctKeys(ChangeKey, changes)
    requires Outcome(spec, scope, rows, changes, next) && q in next
    requires c in changes && c.Insert? && Addresses(c, q.table, q.id)
    requires rule in spec.captures && rule.lineTable == q.table
    ensures rule.capturedPrice in q.values && q.values[rule.capturedPrice].Money?
    ensures PriceOf(spec, scope, Edited(AsMap(rows), changes), c.row, rule) == Some(q.values[rule.capturedPrice].money)
  {
    hide Checked, AsMap, Edited, IsCaptured, TypeOf, Declares, CaptureChecked, Inserted, Addresses;
    assert InsertedAs(spec, scope, next, c.row, q);
    assert Pays(spec, scope, next, q, rule);
    var ref := q.values[rule.productRef].ref;
    var p :| p in next && p.table == ref.table && p.id == ref.record
             && rule.productPrice in p.values && p.values[rule.productPrice] == q.values[rule.capturedPrice];
    AddressesKey(c, q.table, q.id);
    TypeDeclared(spec, q.table, rule.productRef, RefType(ref.table));
    CapturePath(spec, rule);
    DestinationMeans(spec, q.table, rule.productRef);
    assert SameEntry(c.row.values, q.values, rule.productRef);
    OutcomeEntry(spec, scope, rows, changes, next, p, rule.productPrice);
    PriceMeans(spec, scope, Edited(AsMap(rows), changes), c.row, rule, q.values[rule.capturedPrice].money);
  }

  /** A row of an outcome is the row that the store derives at its identity. */
  lemma OutcomeRow(spec: Spec, scope: Scope, rows: seq<RawRecord>, changes: seq<Change>, next: seq<RawRecord>, q: RawRecord)
    requires Checked(spec) && DistinctKeys(RecordKey, rows) && DistinctKeys(ChangeKey, changes)
    requires Outcome(spec, scope, rows, changes, next) && q in next
    ensures var e := Edited(AsMap(rows), changes);
            && RecordKey(q) in e
            && (RecordKey(q) in Inserted(changes) ==> Priced(e[RecordKey(q)], spec.captures, Prices(spec, scope, e, e[RecordKey(q)])))
            && Final(spec, scope, rows, changes)[RecordKey(q)] == q
  {
    hide Checked, AsMap, Edited, Inserted, KeysOf, InsertedAs, PriceOf, Fill, Pays;
    var k := RecordKey(q);
    var e := Edited(AsMap(rows), changes);
    EditedWhere(rows, changes, k);
    if exists c :: c in changes && Addresses(c, q.table, q.id) {
      var c :| c in changes && Addresses(c, q.table, q.id);
      if c.Delete? {
        DeletedGoes(spec, scope, rows, changes, next, c, q);
      } else if c.Insert? {
        InsertedRow(spec, scope, rows, changes, next, q, c);
      }
    } else {
      RowInMap(rows, q);
    }
  }

  lemma InsertedRow(spec: Spec, scope: Scope, rows: seq<RawRecord>, changes: seq<Change>, next: seq<RawRecord>, q: RawRecord, c: Change)
    requires Checked(spec) && DistinctKeys(RecordKey, rows) && DistinctKeys(ChangeKey, changes)
    requires Outcome(spec, scope, rows, changes, next) && q in next
    requires c in changes && c.Insert? && Addresses(c, q.table, q.id)
    ensures var pricing := Prices(spec, scope, Edited(AsMap(rows), changes), c.row);
            Priced(c.row, spec.captures, pricing) && Fill(spec, c.row, pricing) == q
  {
    hide Checked, AsMap, Edited, Inserted, KeysOf, PriceOf, Filled, Pays, Lookup, SameEntry;
    var pricing := Prices(spec, scope, Edited(AsMap(rows), changes), c.row);
    AddressesKey(c, q.table, q.id);
    assert InsertedAs(spec, scope, next, c.row, q);
    forall i | 0 <= i < |spec.captures| && spec.captures[i].lineTable == c.row.table
      ensures spec.captures[i].capturedPrice in q.values && q.values[spec.captures[i].capturedPrice].Money?
      ensures pricing(spec.captures[i]) == Some(q.values[spec.captures[i].capturedPrice].money)
    {
      assert spec.captures[i] in spec.captures;
      OutcomePrice(spec, scope, rows, changes, next, q, c, spec.captures[i]);
    }
    CapturesDistinct(spec);
    FilledAt(c.row, spec.captures, pricing);
    var filled := Fill(spec, c.row, pricing);
    forall f
      ensures SameEntry(filled.values, q.values, f)
    {
      LookupSame(filled.values, q.values, f);
      LookupSame(c.row.values, q.values, f);
      LookupMeans(q.values, f);
      if Destination(spec.captures, c.row.table, f) {
        var i :| 0 <= i < |spec.captures| && spec.captures[i].lineTable == c.row.table && spec.captures[i].capturedPrice == f;
        assert Lookup(filled.values, spec.captures[i].capturedPrice) == Some(Money(pricing(spec.captures[i]).value));
      } else {
        DestinationMeans(spec, c.row.table, f);
      }
    }
    SameMaps(filled.values, q.values);
  }

  lemma CapturesDistinct(spec: Spec)
    requires Checked(spec)
    ensures DistinctKeys(CaptureKey, spec.captures)
  {
    assert StrictlySorted(CaptureKey, spec.captures);
  }

  lemma SameMaps(a: Values, b: Values)
    requires forall f :: SameEntry(a, b, f)
    ensures a == b
  {
    forall f
      ensures f in a <==> f in b
      ensures f in a && f in b ==> a[f] == b[f]
    {
      assert SameEntry(a, b, f);
    }
    assert a.Keys == b.Keys;
  }

  /** Every outcome is the store's: the batch decides what it leaves. */
  lemma OutcomeIsFinal(spec: Spec, scope: Scope, rows: seq<RawRecord>, changes: seq<Change>, next: seq<RawRecord>)
    requires Checked(spec) && DistinctKeys(RecordKey, rows) && DistinctKeys(ChangeKey, changes)
    requires Outcome(spec, scope, rows, changes, next)
    ensures SourcesResolve(spec, scope, Edited(AsMap(rows), changes), Inserted(changes))
    ensures AsMap(next) == Final(spec, scope, rows, changes)
  {
    hide Checked, AsMap, Edited, Inserted, KeysOf, InsertedAs, Priced, Fill, Addresses;
    var e := Edited(AsMap(rows), changes);
    var f := Final(spec, scope, rows, changes);
    AsMapRows(rows);
    AsMapRows(next);
    assert f.Keys == e.Keys;
    forall k
      ensures k in AsMap(next) <==> k in e
      ensures k in e && k in AsMap(next) ==> f[k] == AsMap(next)[k]
      ensures k in e && k in Inserted(changes) ==> Priced(e[k], spec.captures, Prices(spec, scope, e, e[k]))
    {
      KeyOfRow(next, k.table, k.id);
      KeyOfRow(rows, k.table, k.id);
      EditedWhere(rows, changes, k);
      if k in AsMap(next) {
        AsMapIn(next, k);
        assert RecordKey(AsMap(next)[k]) == k;
        OutcomeRow(spec, scope, rows, changes, next, AsMap(next)[k]);
      }
    }
    assert AsMap(next).Keys == f.Keys;
  }

  // ------------------------------------------------------------ acceptance

  /** The order of an outcome does not matter: it is published as its listing is. */
  lemma ListedAlike(spec: Spec, scope: Scope, next: seq<RawRecord>)
    requires DistinctKeys(RecordKey, next)
    ensures Validate(spec, scope, RowsOf(AsMap(next))) == Validate(spec, scope, next)
    ensures Canonical(spec, RowsOf(AsMap(next))) == Canonical(spec, next)
  {
    hide Listing, ValidRows, Sort;
    SortPermutes(RecordKey, next);
    SortedIsListing(next);
    ValidateBlind(spec, scope, RowsOf(AsMap(next)), next);
    SortBlind(RecordKey, RowsOf(AsMap(next)), next);
  }

  /** A batch is accepted exactly when it is bounded, reads well, zero is admitted where prices are captured, and it has an outcome that can be published. */
  lemma BatchExactly(spec: Spec, scope: Scope, rows: seq<RawRecord>, changes: seq<Change>)
    requires Checked(spec) && DistinctKeys(RecordKey, rows)
    ensures Admits(spec, scope, rows, changes) <==>
              && |changes| <= 1_024
              && BatchReads(spec, rows, changes)
              && ZeroObeys(spec, changes)
              && exists next :: Outcome(spec, scope, rows, changes, next) && Publishable(spec, scope, next)
    ensures forall next :: Admits(spec, scope, rows, changes) && Outcome(spec, scope, rows, changes, next) ==>
              After(spec, scope, rows, changes) == Canonical(spec, next)
  {
    hide Checked, AsMap, Edited, Inserted, Captured, Listing, ValidRows, ChangeOk, ChangeReads, Outcome, Publishable, SourcesResolve, Canonical, BatchReads, ZeroObeys, ZeroAdmitted;
    EditsExactly(spec, rows, changes);
    ZeroMeans(spec, changes);
    if Admits(spec, scope, rows, changes) {
      FinalIsOutcome(spec, scope, rows, changes);
      ValidateExactly(spec, scope, RowsOf(Final(spec, scope, rows, changes)));
    }
    forall next | Outcome(spec, scope, rows, changes, next) && EditsOk(spec, AsMap(rows), changes)
      ensures Admits(spec, scope, rows, changes) ==> After(spec, scope, rows, changes) == Canonical(spec, next)
      ensures Publishable(spec, scope, next) ==>
                SourcesResolve(spec, scope, Edited(AsMap(rows), changes), Inserted(changes)) && ValidRows(spec, scope, RowsOf(Final(spec, scope, rows, changes)))
    {
      OutcomeIsFinal(spec, scope, rows, changes, next);
      OutcomeDistinct(spec, scope, rows, changes, next);
      ListedAlike(spec, scope, next);
      ValidateExactly(spec, scope, next);
    }
  }

  lemma OutcomeDistinct(spec: Spec, scope: Scope, rows: seq<RawRecord>, changes: seq<Change>, next: seq<RawRecord>)
    requires Outcome(spec, scope, rows, changes, next)
    ensures DistinctKeys(RecordKey, next)
  {
  }

  // ------------------------------------------------------------ one deletion

  predicate Is(r: RawRecord, table: TableId, id: RecordId) {
    r.table == table && r.id == id
  }

  /** Some field of `r` refers to that row. */
  predicate RefersTo(r: RawRecord, table: TableId, id: RecordId) {
    exists f :: f in r.values && r.values[f].Ref? && r.values[f].ref.table == table && r.values[f].ref.record == id
  }

  lemma RowShrinks(spec: Spec, scope: Scope, keys: set<Key>, r: RawRecord, table: TableId, id: RecordId)
    requires RowOk(spec, scope, keys, r)
    ensures RowOk(spec, scope, keys - {Key(table, id)}, r) <==> !RefersTo(r, table, id)
  {
    hide ConstraintsAccept, MachinesAccept;
    var fewer := keys - {Key(table, id)};
    var t := FindTable(spec.tables, r.table).value;
    if RowOk(spec, scope, fewer, r) {
      forall f | f in r.values
        ensures !(r.values[f].Ref? && r.values[f].ref.table == table && r.values[f].ref.record == id)
      {
        RowOkValue(spec, scope, fewer, r, f);
        ValueScoped(spec, scope, keys, r, f);
      }
    }
    if !RefersTo(r, table, id) {
      forall i | 0 <= i < |t.fields|
        ensures FieldOk(spec, scope, fewer, t.id, t.fields[i], Get(r.values, t.fields[i].id))
      {
        assert FieldOk(spec, scope, keys, t.id, t.fields[i], Get(r.values, t.fields[i].id));
      }
    }
  }

  lemma ValueScoped(spec: Spec, scope: Scope, keys: set<Key>, r: RawRecord, f: FieldId)
    requires RowOk(spec, scope, keys, r) && f in r.values
    ensures r.values[f].Ref? ==> r.values[f].ref.scope == scope
  {
    hide ConstraintsAccept, MachinesAccept;
    var t := FindTable(spec.tables, r.table).value;
    assert KnownField(t.fields, f);
    var i :| 0 <= i < |t.fields| && t.fields[i].id == f;
    assert FieldOk(spec, scope, keys, t.id, t.fields[i], Get(r.values, t.fields[i].id));
  }

  lemma OnlyDeletion(spec: Spec, scope: Scope, rows: seq<RawRecord>, table: TableId, id: RecordId)
    ensures var changes := [Delete(table, id)];
            && Inserted(changes) == {} && ZeroAdmitted(spec, changes)
            && Edited(AsMap(rows), changes) == AsMap(rows) - {Key(table, id)}
            && SourcesResolve(spec, scope, Edited(AsMap(rows), changes), Inserted(changes))
            && Final(spec, scope, rows, changes) == AsMap(rows) - {Key(table, id)}
            && (EditsOk(spec, AsMap(rows), changes) <==> Key(table, id) in AsMap(rows))
  {
    var changes := [Delete(table, id)];
    var c := changes[0];
    assert changes[..0] == [];
    assert Edited(AsMap(rows), changes) == Edit(Edited(AsMap(rows), []), c);
  }

  /** Checked facts without one row fit, and hold exactly when nothing else refers to it. */
  lemma FewerFit(spec: Spec, scope: Scope, rows: seq<RawRecord>, table: TableId, id: RecordId)
    requires CheckedRecords(spec, scope, rows)
    ensures ValidRows(spec, scope, RowsOf(AsMap(rows) - {Key(table, id)})) <==>
              forall r :: r in rows && !Is(r, table, id) ==> !RefersTo(r, table, id)
    ensures Canonical(spec, RowsOf(AsMap(rows) - {Key(table, id)})) == RowsOf(AsMap(rows) - {Key(table, id)})
  {
    hide RowOk, Listing, RefersTo, RecordBytes, RecordNodes, Normal, RowsBytes, RowsNodes, KeysOf;
    var k := Key(table, id);
    var m := AsMap(rows);
    var e := m - {k};
    DistinctRows(rows);
    AsMapRows(rows);
    RowsOfMap(rows);
    RowsOfValid(spec, scope, m);
    RowsOfValid(spec, scope, e);
    NormalRowsOfMap(spec, rows);
    assert NormalFacts(spec, e) == e;
    ListingGrows(e.Keys, e, m.Keys, m);
    ListingLength(e.Keys, e);
    ListingLength(m.Keys, m);
    FewerKeys(m.Keys, k);
    forall q | q in e
      ensures e[q] in rows && !Is(e[q], table, id) && (RowOk(spec, scope, e.Keys, e[q]) <==> !RefersTo(e[q], table, id))
    {
      AsMapIn(rows, q);
      RowShrinks(spec, scope, m.Keys, m[q], table, id);
      assert e.Keys == m.Keys - {k};
    }
    forall r | r in rows && !Is(r, table, id)
      ensures RecordKey(r) in e && e[RecordKey(r)] == r
    {
      RowInMap(rows, r);
    }
  }

  lemma FewerKeys(keys: set<Key>, k: Key)
    ensures |keys - {k}| <= |keys|
  {
    assert keys == (keys - {k}) + (keys * {k});
  }

  lemma DistinctRows(rows: seq<RawRecord>)
    requires StrictlySorted(RecordKey, rows)
    ensures DistinctKeys(RecordKey, rows)
  {
  }

  lemma NormalRowsOfMap(spec: Spec, rows: seq<RawRecord>)
    requires DistinctKeys(RecordKey, rows) && NormalRows(spec, rows) == rows
    ensures forall k :: k in AsMap(rows) ==> Normal(spec, AsMap(rows)[k]) == AsMap(rows)[k]
  {
    forall k | k in AsMap(rows)
      ensures Normal(spec, AsMap(rows)[k]) == AsMap(rows)[k]
    {
      AsMapIn(rows, k);
      var i :| 0 <= i < |rows| && rows[i] == AsMap(rows)[k];
      assert NormalRows(spec, rows)[i] == Normal(spec, rows[i]);
    }
  }

  /** One row is deleted exactly when it is there and no other row refers to it; the rest stays as it is, in order. */
  lemma DeleteExactly(spec: Spec, scope: Scope, rows: seq<RawRecord>, table: TableId, id: RecordId)
    requires Checked(spec) && CheckedRecords(spec, scope, rows)
    ensures Admits(spec, scope, rows, [Delete(table, id)]) <==>
              HasRow(rows, table, id) && forall r :: r in rows && !Is(r, table, id) ==> !RefersTo(r, table, id)
    ensures var after := After(spec, scope, rows, [Delete(table, id)]);
            && StrictlySorted(RecordKey, after)
            && forall r :: r in after <==> r in rows && !Is(r, table, id)
  {
    hide Checked, ValidRows, Listing, RefersTo, Canonical, AsMap, KeysOf, EditsOk, Edited, ZeroAdmitted, SourcesResolve, Inserted, Captured;
    OnlyDeletion(spec, scope, rows, table, id);
    FewerFit(spec, scope, rows, table, id);
    DistinctRows(rows);
    AsMapRows(rows);
    KeyOfRow(rows, table, id);
    var e := AsMap(rows) - {Key(table, id)};
    ListingRows(e.Keys, e);
    forall r
      ensures r in RowsOf(e) <==> r in rows && !Is(r, table, id)
    {
      if r in RowsOf(e) {
        var i :| 0 <= i < |RowsOf(e)| && RowsOf(e)[i] == r;
        assert RecordKey(r) in e && e[RecordKey(r)] == r;
        AsMapIn(rows, RecordKey(r));
      }
      if r in rows && !Is(r, table, id) {
        RowInMap(rows, r);
        assert RecordKey(r) in e.Keys;
        assert e[RecordKey(r)] in RowsOf(e);
      }
    }
  }
}
