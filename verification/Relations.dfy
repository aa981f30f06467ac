/**
 All-or-nothing batch edits of a relation store.

 A batch inserts, replaces and deletes rows, restricts the deletion of referenced rows, derives the
 price captures of inserted lines from the finished batch, and publishes the result only when the
 whole final graph is valid.
 */
module Relations {
  import opened Wrappers
  import opened Sorting
  import opened AppSpec
  import opened Decimals
  import opened Records
  import opened Facts
  import opened Validation

  const MAX_BATCH := 1_024

  datatype Change =
    | Insert(row: RawRecord)
    | Replace(row: RawRecord)
    | Delete(table: TableId, record: RecordId)

  function ChangeKey(c: Change): Key {
    if c.Delete? then Key(c.table, c.record) else RecordKey(c.row)
  }

  // ------------------------------------------------------------ edits

  function Edit(m: FactMap, c: Change): FactMap {
    if c.Delete? then m - {ChangeKey(c)} else m[ChangeKey(c) := c.row]
  }

  function Edited(m: FactMap, changes: seq<Change>): FactMap {
    if changes == [] then m
    else Edit(Edited(m, changes[..|changes| - 1]), changes[|changes| - 1])
  }

  function Touched(changes: seq<Change>): set<Key> {
    set i | 0 <= i < |changes| :: ChangeKey(changes[i])
  }

  function Inserted(changes: seq<Change>): set<Key> {
    set i | 0 <= i < |changes| && changes[i].Insert? :: ChangeKey(changes[i])
  }

  function Deleted(changes: seq<Change>): set<Key> {
    set i | 0 <= i < |changes| && changes[i].Delete? :: ChangeKey(changes[i])
  }

  /** The rows a batch brings along, in batch order. */
  function Incoming(changes: seq<Change>): seq<RawRecord> {
    if changes == [] then []
    else
      var c := changes[|changes| - 1];
      Incoming(changes[..|changes| - 1]) + (if c.Delete? then [] else [c.row])
  }

  function Lookup(values: Values, field: FieldId): Option<Value> {
    if field in values then Some(values[field]) else None
  }

  predicate CaptureFree(spec: Spec, r: RawRecord) {
    forall i :: 0 <= i < |spec.captures| && spec.captures[i].lineTable == r.table
      ==> Missing(Get(r.values, spec.captures[i].capturedPrice))
  }

  predicate CaptureKept(spec: Spec, was: RawRecord, r: RawRecord) {
    forall i :: 0 <= i < |spec.captures| && spec.captures[i].lineTable == r.table ==>
      && Lookup(was.values, spec.captures[i].capturedPrice) == Lookup(r.values, spec.captures[i].capturedPrice)
      && Lookup(was.values, spec.captures[i].productRef) == Lookup(r.values, spec.captures[i].productRef)
  }

  /** Inserted rows are new and leave captures to the store; replaced rows exist and keep them; deleted rows exist. */
  predicate ChangeOk(spec: Spec, before: FactMap, c: Change) {
    match c
    case Insert(r) => ChangeKey(c) !in before && CaptureFree(spec, r)
    case Replace(r) => ChangeKey(c) in before && CaptureKept(spec, before[ChangeKey(c)], r)
    case Delete(_, _) => ChangeKey(c) in before
  }

  ghost predicate EditsOk(spec: Spec, before: FactMap, changes: seq<Change>) {
    && DistinctKeys(ChangeKey, changes)
    && forall i :: 0 <= i < |changes| ==> ChangeOk(spec, before, changes[i])
  }

  // ------------------------------------------------------------ captures

  type Pricing = CaptureRule -> Option<i64>

  /** The price a line captures: that of the product it references, among the facts `m`. */
  function PriceOf(spec: Spec, scope: Scope, m: FactMap, r: RawRecord, c: CaptureRule): Option<i64> {
    match Lookup(r.values, c.productRef)
    case Some(Ref(ref)) =>
      var product := Key(ref.table, ref.record);
      if ref.scope == scope && TypeOf(spec, r.table, c.productRef) == Some(RefType(ref.table)) && product in m then
        match Lookup(m[product].values, c.productPrice)
        case Some(Money(price)) => Some(price)
        case _ => None
      else None
    case _ => None
  }

  function Prices(spec: Spec, scope: Scope, m: FactMap, r: RawRecord): Pricing {
    c => PriceOf(spec, scope, m, r, c)
  }

  function Zeroes(): Pricing {
    c => Some(0)
  }

  /** The values of `r` with the captures among `rules` that have a price filled in. */
  function Filled(r: RawRecord, rules: seq<CaptureRule>, pricing: Pricing): Values {
    if rules == [] then r.values
    else
      var c := rules[|rules| - 1];
      var rest := Filled(r, rules[..|rules| - 1], pricing);
      if c.lineTable == r.table && pricing(c).Some? then rest[c.capturedPrice := Money(pricing(c).value)] else rest
  }

  function Fill(spec: Spec, r: RawRecord, pricing: Pricing): RawRecord {
    r.(values := Filled(r, spec.captures, pricing))
  }

  /** The candidate facts with the captures of the inserted rows filled by a temporary zero. */
  function Placeholders(spec: Spec, m: FactMap, inserted: set<Key>): FactMap {
    map k | k in m :: if k in inserted then Fill(spec, m[k], Zeroes()) else m[k]
  }

  /** The candidate facts with the captures of the inserted rows filled from the prices in the candidate. */
  function Captured(spec: Spec, scope: Scope, m: FactMap, inserted: set<Key>): FactMap {
    map k | k in m :: if k in inserted then Fill(spec, m[k], Prices(spec, scope, m, m[k])) else m[k]
  }

  predicate Priced(r: RawRecord, rules: seq<CaptureRule>, pricing: Pricing) {
    forall i :: 0 <= i < |rules| && rules[i].lineTable == r.table ==> pricing(rules[i]).Some?
  }

  ghost predicate SourcesResolve(spec: Spec, scope: Scope, m: FactMap, inserted: set<Key>) {
    forall k :: k in inserted && k in m ==> Priced(m[k], spec.captures, Prices(spec, scope, m, m[k]))
  }

  // ------------------------------------------------------------ acceptance

  function Final(spec: Spec, scope: Scope, rows: seq<RawRecord>, changes: seq<Change>): FactMap {
    Captured(spec, scope, Edited(AsMap(rows), changes), Inserted(changes))
  }

  /** The facts a batch leaves behind when it is accepted. */
  function After(spec: Spec, scope: Scope, rows: seq<RawRecord>, changes: seq<Change>): seq<RawRecord> {
    Canonical(spec, RowsOf(Final(spec, scope, rows, changes)))
  }

  /** The batch reads well, its sources resolve and it leaves a valid graph. */
  ghost predicate Sound(spec: Spec, scope: Scope, rows: seq<RawRecord>, changes: seq<Change>) {
    && |changes| <= MAX_BATCH
    && EditsOk(spec, AsMap(rows), changes)
    && SourcesResolve(spec, scope, Edited(AsMap(rows), changes), Inserted(changes))
    && ValidRows(spec, scope, RowsOf(Final(spec, scope, rows, changes)))
  }

  /** Every capture destination of an inserted row may hold zero. */
  ghost predicate ZeroAdmitted(spec: Spec, changes: seq<Change>) {
    forall i, j :: (0 <= i < |changes| && changes[i].Insert?
                    && 0 <= j < |spec.captures| && spec.captures[j].lineTable == changes[i].row.table)
                   ==> ConstraintsAccept(spec, spec.captures[j].lineTable, spec.captures[j].capturedPrice, Money(0))
  }

  ghost predicate Admits(spec: Spec, scope: Scope, rows: seq<RawRecord>, changes: seq<Change>) {
    Sound(spec, scope, rows, changes) && ZeroAdmitted(spec, changes)
  }

  // ------------------------------------------------------------ what the edits leave

  /** With distinct identities every edit is visible in the result, and nothing else changed. */
  ghost predicate Reflects(m: FactMap, changes: seq<Change>, e: FactMap) {
    && (forall i :: 0 <= i < |changes| ==>
          var k := ChangeKey(changes[i]);
          if changes[i].Delete? then k !in e else k in e && e[k] == changes[i].row)
    && (forall k :: k !in Touched(changes) ==> (k in e <==> k in m))
    && (forall k :: k !in Touched(changes) && k in m && k in e ==> e[k] == m[k])
  }

  lemma TouchedLast(changes: seq<Change>)
    requires changes != []
    ensures var n := |changes| - 1;
            && Touched(changes) == Touched(changes[..n]) + {ChangeKey(changes[n])}
            && Inserted(changes) == Inserted(changes[..n]) + (if changes[n].Insert? then {ChangeKey(changes[n])} else {})
            && Deleted(changes) == Deleted(changes[..n]) + (if changes[n].Delete? then {ChangeKey(changes[n])} else {})
  {
    var n := |changes| - 1;
    var front := changes[..n];
    assert forall i :: 0 <= i < n ==> changes[i] == front[i];
  }

  lemma {:induction false} EditedReflects(m: FactMap, changes: seq<Change>)
    requires DistinctKeys(ChangeKey, changes)
    ensures Reflects(m, changes, Edited(m, changes))
  {
    if changes != [] {
      var n := |changes| - 1;
      var front := changes[..n];
      EditedReflects(m, front);
      TouchedLast(changes);
      var e := Edited(m, changes);
      forall i | 0 <= i < |changes|
        ensures var k := ChangeKey(changes[i]);
                if changes[i].Delete? then k !in e else k in e && e[k] == changes[i].row
      {
        if i < n {
          assert front[i] == changes[i];
          assert ChangeKey(changes[i]) != ChangeKey(changes[n]);
        }
      }
    }
  }

  lemma {:induction false} EditedKeyed(m: FactMap, changes: seq<Change>)
    requires Keyed(m)
    ensures Keyed(Edited(m, changes))
  {
    if changes != [] {
      EditedKeyed(m, changes[..|changes| - 1]);
    }
  }

  lemma TouchedPermutes(s: seq<Change>, t: seq<Change>)
    requires multiset(s) == multiset(t)
    ensures Touched(s) == Touched(t) && Inserted(s) == Inserted(t) && Deleted(s) == Deleted(t)
  {
    SameElements(s, t);
    TouchedWithin(s, t);
    TouchedWithin(t, s);
  }

  lemma TouchedWithin(s: seq<Change>, t: seq<Change>)
    requires forall c :: c in s ==> c in t
    ensures Touched(s) <= Touched(t) && Inserted(s) <= Inserted(t) && Deleted(s) <= Deleted(t)
  {
    forall i | 0 <= i < |s|
      ensures exists j :: 0 <= j < |t| && t[j] == s[i]
    {
      assert s[i] in t;
    }
  }

  lemma EditedPermutes(m: FactMap, s: seq<Change>, t: seq<Change>)
    requires multiset(s) == multiset(t) && DistinctKeys(ChangeKey, s)
    ensures Edited(m, s) == Edited(m, t)
  {
    DistinctPermutes(ChangeKey, s, t);
    SameElements(s, t);
    TouchedPermutes(s, t);
    EditedReflects(m, s);
    EditedReflects(m, t);
    var a, b := Edited(m, s), Edited(m, t);
    forall k
      ensures (k in a <==> k in b) && (k in a ==> a[k] == b[k])
    {
      if k in Touched(s) {
        var i :| 0 <= i < |s| && ChangeKey(s[i]) == k;
        assert s[i] in t;
        var j :| 0 <= j < |t| && t[j] == s[i];
      }
    }
    assert a.Keys == b.Keys;
  }

  /** Any order of the same changes is accepted or rejected alike, and leaves the same facts. */
  lemma OrderIrrelevant(spec: Spec, scope: Scope, rows: seq<RawRecord>, s: seq<Change>, t: seq<Change>)
    requires multiset(s) == multiset(t)
    ensures Admits(spec, scope, rows, s) <==> Admits(spec, scope, rows, t)
    ensures Admits(spec, scope, rows, s) ==> After(spec, scope, rows, s) == After(spec, scope, rows, t)
  {
    if Admits(spec, scope, rows, s) { AcceptedReordered(spec, scope, rows, s, t); }
    if Admits(spec, scope, rows, t) { AcceptedReordered(spec, scope, rows, t, s); }
  }

  lemma AcceptedReordered(spec: Spec, scope: Scope, rows: seq<RawRecord>, s: seq<Change>, t: seq<Change>)
    requires multiset(s) == multiset(t) && Admits(spec, scope, rows, s)
    ensures Admits(spec, scope, rows, t) && After(spec, scope, rows, s) == After(spec, scope, rows, t)
  {
    hide ChangeOk, ConstraintsAccept;
    SameElements(s, t);
    DistinctPermutes(ChangeKey, s, t);
    EditedPermutes(AsMap(rows), s, t);
    TouchedPermutes(s, t);
    forall i | 0 <= i < |t|
      ensures exists j :: 0 <= j < |s| && s[j] == t[i]
    {
      assert t[i] in s;
    }
  }

  // ------------------------------------------------------------ what filling captures changes

  lemma {:induction false} FilledAt(r: RawRecord, rules: seq<CaptureRule>, pricing: Pricing)
    requires DistinctKeys(CaptureKey, rules) && Priced(r, rules, pricing)
    ensures forall i :: 0 <= i < |rules| && rules[i].lineTable == r.table ==>
              Lookup(Filled(r, rules, pricing), rules[i].capturedPrice) == Some(Money(pricing(rules[i]).value))
    ensures forall f :: !Destination(rules, r.table, f) ==> Lookup(Filled(r, rules, pricing), f) == Lookup(r.values, f)
  {
    if rules != [] {
      var n := |rules| - 1;
      var front := rules[..n];
      assert forall i :: 0 <= i < n ==> front[i] == rules[i];
      FilledAt(r, front, pricing);
      forall i | 0 <= i < |rules| && rules[i].lineTable == r.table
        ensures Lookup(Filled(r, rules, pricing), rules[i].capturedPrice) == Some(Money(pricing(rules[i]).value))
      {
        if i < n {
          assert front[i] == rules[i];
          assert CaptureKey(rules[i]) != CaptureKey(rules[n]);
        }
      }
      forall f | !Destination(rules, r.table, f)
        ensures Lookup(Filled(r, rules, pricing), f) == Lookup(r.values, f)
      {
        assert !Destination(front, r.table, f);
        assert rules[n].lineTable == r.table ==> rules[n].capturedPrice != f;
      }
    }
  }

  lemma DestinationIsMoney(spec: Spec, table: TableId, f: FieldId)
    requires Checked(spec) && IsCaptured(spec, table, f)
    ensures TypeOf(spec, table, f) == Some(MoneyType)
  {
    var i :| 0 <= i < |spec.captures| && spec.captures[i].lineTable == table && spec.captures[i].capturedPrice == f;
    assert spec.captures[i] in spec.captures;
    assert CaptureChecked(spec, spec.captures[i]);
  }

  /** A capture path never runs through a captured field, and no price that is captured is itself captured. */
  lemma CapturePath(spec: Spec, rule: CaptureRule)
    requires Checked(spec) && rule in spec.captures
    ensures var path := TypeOf(spec, rule.lineTable, rule.productRef);
            && path.Some? && path.value.RefType?
            && !IsCaptured(spec, rule.lineTable, rule.productRef)
            && !IsCaptured(spec, path.value.target, rule.productPrice)
  {
    assert CaptureChecked(spec, rule);
    if IsCaptured(spec, rule.lineTable, rule.productRef) {
      DestinationIsMoney(spec, rule.lineTable, rule.productRef);
    }
  }

  /** Two fillings of the same row touch the same fields and leave money in each of them. */
  lemma FilledTwice(spec: Spec, r: RawRecord, p: Pricing)
    requires Checked(spec) && Priced(r, spec.captures, p)
    ensures Fill(spec, r, p).values.Keys == Fill(spec, r, Zeroes()).values.Keys
    ensures forall f :: IsCaptured(spec, r.table, f) ==>
              && f in Fill(spec, r, p).values && Fill(spec, r, p).values[f].Money?
              && Lookup(Fill(spec, r, Zeroes()).values, f) == Some(Money(0))
    ensures forall f :: !IsCaptured(spec, r.table, f) ==>
              && Lookup(Fill(spec, r, p).values, f) == Lookup(r.values, f)
              && Lookup(Fill(spec, r, Zeroes()).values, f) == Lookup(r.values, f)
  {
    hide Filled, TypeOf, Lookup;
    var a, b := Fill(spec, r, p).values, Fill(spec, r, Zeroes()).values;
    assert StrictlySorted(CaptureKey, spec.captures);
    assert DistinctKeys(CaptureKey, spec.captures);
    FilledAt(r, spec.captures, p);
    FilledAt(r, spec.captures, Zeroes());
    forall f
      ensures IsCaptured(spec, r.table, f) ==> f in a && a[f].Money? && Lookup(b, f) == Some(Money(0))
    {
      LookupMeans(a, f);
      if IsCaptured(spec, r.table, f) {
        var i :| 0 <= i < |spec.captures| && spec.captures[i].lineTable == r.table && spec.captures[i].capturedPrice == f;
        assert Lookup(b, f) == Some(Money(0));
      }
    }
    forall f
      ensures f in a.Keys <==> f in b.Keys
    {
      LookupMeans(a, f);
      LookupMeans(b, f);
      assert IsCaptured(spec, r.table, f) || Lookup(a, f) == Lookup(b, f);
    }
  }

  lemma LookupMeans(values: Values, f: FieldId)
    ensures Lookup(values, f) == if f in values then Some(values[f]) else None
  {
  }

  /** Swapping the prices in the captured fields of a row changes nothing but the constraints on those fields. */
  lemma RepricedRow(spec: Spec, scope: Scope, keys: set<Key>, a: RawRecord, b: RawRecord)
    requires Checked(spec) && RowOk(spec, scope, keys, a)
    requires b.scope == a.scope && b.table == a.table && a.values.Keys == b.values.Keys
    requires forall f :: f in a.values && !IsCaptured(spec, a.table, f) ==> b.values[f] == a.values[f]
    requires forall f :: f in a.values && IsCaptured(spec, a.table, f) ==> a.values[f].Money? && b.values[f].Money?
    requires forall f :: f in a.values && IsCaptured(spec, a.table, f) ==> ConstraintsAccept(spec, a.table, f, b.values[f])
    ensures RowOk(spec, scope, keys, b)
  {
    hide ConstraintsAccept, IsCaptured;
    var t := FindTable(spec.tables, a.table).value;
    forall i | 0 <= i < |t.fields|
      ensures FieldOk(spec, scope, keys, t.id, t.fields[i], Get(b.values, t.fields[i].id))
    {
      assert FieldOk(spec, scope, keys, t.id, t.fields[i], Get(a.values, t.fields[i].id));
    }
  }

  lemma ZeroFromRow(spec: Spec, scope: Scope, keys: set<Key>, r: RawRecord, rule: CaptureRule)
    requires Checked(spec) && rule in spec.captures && rule.lineTable == r.table
    requires RowOk(spec, scope, keys, Fill(spec, r, Zeroes()))
    ensures ConstraintsAccept(spec, rule.lineTable, rule.capturedPrice, Money(0))
  {
    hide ConstraintsAccept, Filled;
    FilledTwice(spec, r, Zeroes());
    var i :| 0 <= i < |spec.captures| && spec.captures[i] == rule;
    assert IsCaptured(spec, r.table, rule.capturedPrice);
    var filled := Fill(spec, r, Zeroes());
    var t := FindTable(spec.tables, r.table).value;
    assert KnownField(t.fields, rule.capturedPrice);
    var j :| 0 <= j < |t.fields| && t.fields[j].id == rule.capturedPrice;
    assert FieldOk(spec, scope, keys, t.id, t.fields[j], Get(filled.values, t.fields[j].id));
  }

  // ------------------------------------------------------------ the placeholder graph

  /** The inserted rows leave captures to the store and may hold zero in them. */
  ghost predicate ZeroFits(spec: Spec, m: FactMap, inserted: set<Key>) {
    forall k, j :: (k in inserted && k in m && 0 <= j < |spec.captures| && spec.captures[j].lineTable == m[k].table)
                   ==> ConstraintsAccept(spec, spec.captures[j].lineTable, spec.captures[j].capturedPrice, Money(0))
  }

  lemma FilledSize(spec: Spec, r: RawRecord, p: Pricing)
    requires Checked(spec) && Priced(r, spec.captures, p)
    ensures var a, b := Fill(spec, r, Zeroes()), Fill(spec, r, p);
            && RecordBytes(a) <= RecordBytes(b) && RecordNodes(a) <= RecordNodes(b)
            && RecordBytes(Normal(spec, a)) <= RecordBytes(Normal(spec, b))
            && RecordNodes(Normal(spec, a)) <= RecordNodes(Normal(spec, b))
  {
    hide Filled, RecordBytes, RecordNodes, IsCaptured;
    var a, b := Fill(spec, r, Zeroes()), Fill(spec, r, p);
    FilledTwice(spec, r, p);
    assert forall f :: f in a.values ==> ValueBytes(a.values[f]) <= ValueBytes(b.values[f])
                                         && ValueNodes(a.values[f]) <= ValueNodes(b.values[f]);
    RecordGrows(a, b);
    if FindTable(spec.tables, r.table).Some? {
      var fields := FindTable(spec.tables, r.table).value.fields;
      assert forall f :: ValueBytes(Get(a.values, f)) <= ValueBytes(Get(b.values, f))
                         && ValueNodes(Get(a.values, f)) <= ValueNodes(Get(b.values, f));
      assert NormalValues(fields, a.values).Keys == NormalValues(fields, b.values).Keys;
      RecordGrows(Normal(spec, a), Normal(spec, b));
    }
  }

  lemma FilledKeyed(spec: Spec, scope: Scope, m: FactMap, inserted: set<Key>)
    requires Keyed(m)
    ensures Keyed(Placeholders(spec, m, inserted)) && Keyed(Captured(spec, scope, m, inserted))
    ensures Placeholders(spec, m, inserted).Keys == m.Keys == Captured(spec, scope, m, inserted).Keys
  {
  }

  /** The temporary zero never makes the candidate larger than the facts it stands in for. */
  lemma PlaceholderSize(spec: Spec, scope: Scope, m: FactMap, inserted: set<Key>)
    requires Checked(spec) && Keyed(m) && SourcesResolve(spec, scope, m, inserted)
    ensures var p, f := Placeholders(spec, m, inserted), Captured(spec, scope, m, inserted);
            && (Fits(RowsOf(f)) ==> Fits(RowsOf(p)))
            && (Fits(RowsOf(NormalFacts(spec, f))) ==> Fits(RowsOf(NormalFacts(spec, p))))
  {
    hide RecordBytes, RecordNodes, Fill, Normal, Listing, Priced, RowsBytes, RowsNodes;
    var p, f := Placeholders(spec, m, inserted), Captured(spec, scope, m, inserted);
    FilledKeyed(spec, scope, m, inserted);
    forall k | k in m
      ensures RecordBytes(p[k]) <= RecordBytes(f[k]) && RecordNodes(p[k]) <= RecordNodes(f[k])
      ensures RecordBytes(Normal(spec, p[k])) <= RecordBytes(Normal(spec, f[k]))
              && RecordNodes(Normal(spec, p[k])) <= RecordNodes(Normal(spec, f[k]))
    {
      if k in inserted {
        FilledSize(spec, m[k], Prices(spec, scope, m, m[k]));
      }
    }
    ListingGrows(m.Keys, p, m.Keys, f);
    var np, nf := NormalFacts(spec, p), NormalFacts(spec, f);
    assert np.Keys == m.Keys == nf.Keys;
    ListingGrows(m.Keys, np, m.Keys, nf);
  }

  lemma PlaceholderGraph(spec: Spec, scope: Scope, m: FactMap, inserted: set<Key>)
    requires Checked(spec) && Keyed(m) && SourcesResolve(spec, scope, m, inserted)
    requires GraphOk(spec, scope, Captured(spec, scope, m, inserted)) && ZeroFits(spec, m, inserted)
    ensures GraphOk(spec, scope, Placeholders(spec, m, inserted))
  {
    hide RowOk, Fill, ConstraintsAccept;
    var p, f := Placeholders(spec, m, inserted), Captured(spec, scope, m, inserted);
    FilledKeyed(spec, scope, m, inserted);
    forall k | k in p
      ensures RowOk(spec, scope, p.Keys, p[k])
    {
      assert RowOk(spec, scope, f.Keys, f[k]);
      if k in inserted {
        ZeroedRow(spec, scope, f.Keys, m, inserted, k);
      }
    }
  }

  lemma ZeroedRow(spec: Spec, scope: Scope, keys: set<Key>, m: FactMap, inserted: set<Key>, k: Key)
    requires Checked(spec) && k in m && k in inserted && ZeroFits(spec, m, inserted)
    requires Priced(m[k], spec.captures, Prices(spec, scope, m, m[k]))
    requires RowOk(spec, scope, keys, Fill(spec, m[k], Prices(spec, scope, m, m[k])))
    ensures RowOk(spec, scope, keys, Fill(spec, m[k], Zeroes()))
  {
    hide RowOk, Filled, ConstraintsAccept, Priced;
    var r := m[k];
    var p := Prices(spec, scope, m, r);
    var a, b := Fill(spec, r, p), Fill(spec, r, Zeroes());
    FilledTwice(spec, r, p);
    forall f | f in a.values && IsCaptured(spec, r.table, f)
      ensures b.values[f] == Money(0) && ConstraintsAccept(spec, r.table, f, Money(0))
    {
      assert Lookup(b.values, f) == Some(Money(0));
      var i :| 0 <= i < |spec.captures| && spec.captures[i].lineTable == r.table && spec.captures[i].capturedPrice == f;
    }
    forall f | f in a.values && !IsCaptured(spec, r.table, f)
      ensures b.values[f] == a.values[f]
    {
      assert Lookup(a.values, f) == Lookup(b.values, f);
    }
    RepricedRow(spec, scope, keys, a, b);
  }

  lemma ZeroFromGraph(spec: Spec, scope: Scope, m: FactMap, inserted: set<Key>)
    requires Checked(spec) && Keyed(m) && GraphOk(spec, scope, Placeholders(spec, m, inserted))
    ensures ZeroFits(spec, m, inserted)
  {
    hide RowOk, Fill, ConstraintsAccept;
    var p := Placeholders(spec, m, inserted);
    forall k, j | k in inserted && k in m && 0 <= j < |spec.captures| && spec.captures[j].lineTable == m[k].table
      ensures ConstraintsAccept(spec, spec.captures[j].lineTable, spec.captures[j].capturedPrice, Money(0))
    {
      assert RowOk(spec, scope, p.Keys, p[k]);
      ZeroFromRow(spec, scope, p.Keys, m[k], spec.captures[j]);
    }
  }

  /** Whether zero is admitted can be read off the batch or off the inserted rows of the candidate. */
  lemma ZeroFitsChanges(spec: Spec, m: FactMap, changes: seq<Change>)
    requires DistinctKeys(ChangeKey, changes)
    ensures ZeroFits(spec, Edited(m, changes), Inserted(changes)) <==> ZeroAdmitted(spec, changes)
  {
    hide ConstraintsAccept;
    EditedReflects(m, changes);
    var e := Edited(m, changes);
    forall i | 0 <= i < |changes| && changes[i].Insert?
      ensures ChangeKey(changes[i]) in Inserted(changes) && e[ChangeKey(changes[i])] == changes[i].row
    {
    }
    forall k | k in Inserted(changes)
      ensures exists i :: 0 <= i < |changes| && changes[i].Insert? && e[k] == changes[i].row
    {
    }
  }

  // ------------------------------------------------------------ the earlier checks are implied by the graph

  /** Inserted rows of the candidate carry nothing in their capture destinations. */
  ghost predicate CapturesOpen(spec: Spec, m: FactMap, inserted: set<Key>) {
    forall k :: k in inserted && k in m ==> CaptureFree(spec, m[k])
  }

  lemma OpenAfterEdits(spec: Spec, before: FactMap, changes: seq<Change>)
    requires EditsOk(spec, before, changes)
    ensures CapturesOpen(spec, Edited(before, changes), Inserted(changes))
  {
    EditedReflects(before, changes);
    forall k | k in Inserted(changes) && k in Edited(before, changes)
      ensures CaptureFree(spec, Edited(before, changes)[k])
    {
      var i :| 0 <= i < |changes| && changes[i].Insert? && ChangeKey(changes[i]) == k;
      assert ChangeOk(spec, before, changes[i]);
    }
  }

  /** Values of a candidate row outside its open capture destinations reach the placeholder graph unchanged. */
  lemma PlaceholderValue(spec: Spec, m: FactMap, inserted: set<Key>, k: Key, f: FieldId)
    requires Checked(spec) && CapturesOpen(spec, m, inserted) && k in m && f in m[k].values
    ensures var p := Placeholders(spec, m, inserted)[k];
            && p.scope == m[k].scope && p.table == m[k].table && p.id == m[k].id
            && f in p.values
            && ValueBytes(m[k].values[f]) <= ValueBytes(p.values[f]) && ValueNodes(m[k].values[f]) <= ValueNodes(p.values[f])
            && (!Missing(m[k].values[f]) ==> p.values[f] == m[k].values[f])
  {
    hide Filled, IsCaptured;
    if k in inserted {
      var r := m[k];
      FilledTwice(spec, r, Zeroes());
      if IsCaptured(spec, r.table, f) {
        OpenDestination(spec, r, f);
      } else {
        assert Lookup(Fill(spec, r, Zeroes()).values, f) == Lookup(r.values, f);
      }
    }
  }

  lemma OpenDestination(spec: Spec, r: RawRecord, f: FieldId)
    requires CaptureFree(spec, r) && IsCaptured(spec, r.table, f)
    ensures Missing(Get(r.values, f))
  {
    var i :| 0 <= i < |spec.captures| && spec.captures[i].lineTable == r.table && spec.captures[i].capturedPrice == f;
  }

  predicate Dangles(scope: Scope, keys: set<Key>, v: Value) {
    v.Ref? && v.ref.scope == scope && Key(v.ref.table, v.ref.record) !in keys
  }

  predicate TextFits(v: Value) {
    v.Text? ==> TextBytes(v.text) <= MAX_TEXT_BYTES
  }

  lemma RowOkValue(spec: Spec, scope: Scope, keys: set<Key>, r: RawRecord, f: FieldId)
    requires RowOk(spec, scope, keys, r) && f in r.values
    ensures !Dangles(scope, keys, r.values[f]) && TextFits(r.values[f])
  {
    hide ConstraintsAccept, MachinesAccept;
    var t := FindTable(spec.tables, r.table).value;
    assert KnownField(t.fields, f);
    var i :| 0 <= i < |t.fields| && t.fields[i].id == f;
    assert FieldOk(spec, scope, keys, t.id, t.fields[i], Get(r.values, t.fields[i].id));
  }

  /** Restricting deletes rejects nothing the final graph would have let through, and long texts neither. */
  lemma GraphRestricts(spec: Spec, scope: Scope, m: FactMap, inserted: set<Key>, k: Key, f: FieldId)
    requires Checked(spec) && CapturesOpen(spec, m, inserted) && GraphOk(spec, scope, Placeholders(spec, m, inserted))
    requires k in m && f in m[k].values
    ensures !Dangles(scope, m.Keys, m[k].values[f]) && TextFits(m[k].values[f])
  {
    hide RowOk, Fill;
    var p := Placeholders(spec, m, inserted);
    PlaceholderValue(spec, m, inserted, k, f);
    assert p.Keys == m.Keys;
    assert RowOk(spec, scope, p.Keys, p[k]);
    RowOkValue(spec, scope, p.Keys, p[k], f);
  }

  lemma {:induction false} IncomingRows(changes: seq<Change>)
    ensures forall r :: r in Incoming(changes) <==>
              exists i :: 0 <= i < |changes| && !changes[i].Delete? && changes[i].row == r
    ensures DistinctKeys(ChangeKey, changes) ==> DistinctKeys(RecordKey, Incoming(changes))
  {
    if changes != [] {
      var n := |changes| - 1;
      var front := changes[..n];
      IncomingRows(front);
      assert forall i :: 0 <= i < n ==> changes[i] == front[i];
      if DistinctKeys(ChangeKey, changes) {
        assert DistinctKeys(ChangeKey, front);
        var rows := Incoming(front);
        forall j | 0 <= j < |rows|
          ensures RecordKey(rows[j]) != ChangeKey(changes[n])
        {
          assert rows[j] in Incoming(front);
          var i :| 0 <= i < |front| && !front[i].Delete? && front[i].row == rows[j];
          assert ChangeKey(changes[i]) != ChangeKey(changes[n]);
        }
      }
    }
  }

  /** The incoming rows alone are never larger than the placeholder graph they end up in. */
  lemma IncomingFits(spec: Spec, m: FactMap, changes: seq<Change>)
    requires Checked(spec) && Keyed(m) && EditsOk(spec, m, changes)
    requires Fits(RowsOf(Placeholders(spec, Edited(m, changes), Inserted(changes))))
    ensures Fits(Incoming(changes))
  {
    hide Fill, Listing, Sort, RowsBytes, RowsNodes, RecordBytes, RecordNodes, ChangeOk, AsMap, IsCaptured, CaptureFree, Edited;
    var e := Edited(m, changes);
    var p := Placeholders(spec, e, Inserted(changes));
    var rows := Incoming(changes);
    IncomingRows(changes);
    EditedReflects(m, changes);
    OpenAfterEdits(spec, m, changes);
    RowsSizeSort(rows);
    SortPermutes(RecordKey, rows);
    SortStrict(RecordKey, rows);
    var sorted := Sort(RecordKey, rows);
    RowsOfMap(sorted);
    AsMapRows(sorted);
    var small := AsMap(sorted);
    SameElements(sorted, rows);
    forall k | k in small
      ensures k in p && RecordBytes(small[k]) <= RecordBytes(p[k]) && RecordNodes(small[k]) <= RecordNodes(p[k])
    {
      var j :| 0 <= j < |sorted| && RecordKey(sorted[j]) == k;
      assert sorted[j] in rows;
      var i :| 0 <= i < |changes| && !changes[i].Delete? && changes[i].row == sorted[j];
      assert e[k] == sorted[j];
      forall f | f in e[k].values
        ensures f in p[k].values && ValueBytes(e[k].values[f]) <= ValueBytes(p[k].values[f])
                && ValueNodes(e[k].values[f]) <= ValueNodes(p[k].values[f])
      {
        PlaceholderValue(spec, e, Inserted(changes), k, f);
      }
      PlaceholderIdentity(spec, e, Inserted(changes), k);
      RecordGrows(e[k], p[k]);
    }
    ListingGrows(small.Keys, small, p.Keys, p);
  }

  lemma PlaceholderIdentity(spec: Spec, m: FactMap, inserted: set<Key>, k: Key)
    requires k in m
    ensures var p := Placeholders(spec, m, inserted)[k];
            p.scope == m[k].scope && p.table == m[k].table && p.id == m[k].id
  {
  }

  // ------------------------------------------------------------ acceptance characterised

  /** Everything a batch is asked before its captures are derived. */
  ghost predicate PreChecks(spec: Spec, scope: Scope, rows: seq<RawRecord>, changes: seq<Change>) {
    var e := Edited(AsMap(rows), changes);
    && |changes| <= MAX_BATCH
    && Fits(Incoming(changes))
    && (forall i, f :: 0 <= i < |changes| && !changes[i].Delete? && f in changes[i].row.values
          ==> TextFits(changes[i].row.values[f]))
    && EditsOk(spec, AsMap(rows), changes)
    && (forall k, f :: k in e && f in e[k].values ==> !Dangles(scope, e.Keys, e[k].values[f]))
    && ValidRows(spec, scope, RowsOf(Placeholders(spec, e, Inserted(changes))))
  }

  /** A batch that deserves acceptance passes every earlier check. */
  lemma AcceptedPasses(spec: Spec, scope: Scope, rows: seq<RawRecord>, changes: seq<Change>)
    requires Checked(spec) && Admits(spec, scope, rows, changes)
    ensures PreChecks(spec, scope, rows, changes)
  {
    hide RowOk, Fits, Checked, ChangeOk, Fill, ConstraintsAccept, Placeholders, Captured, NormalFacts, Edited, Incoming;
    var m := AsMap(rows);
    var e := Edited(m, changes);
    var inserted := Inserted(changes);
    AsMapRows(rows);
    EditedKeyed(m, changes);
    EditedReflects(m, changes);
    OpenAfterEdits(spec, m, changes);
    ZeroFitsChanges(spec, m, changes);
    FilledKeyed(spec, scope, e, inserted);
    var p, f := Placeholders(spec, e, inserted), Captured(spec, scope, e, inserted);
    RowsOfValid(spec, scope, f);
    RowsOfValid(spec, scope, p);
    PlaceholderGraph(spec, scope, e, inserted);
    PlaceholderSize(spec, scope, e, inserted);
    ListingLength(p.Keys, p);
    ListingLength(f.Keys, f);
    IncomingFits(spec, m, changes);
    forall k, g | k in e && g in e[k].values
      ensures !Dangles(scope, e.Keys, e[k].values[g]) && TextFits(e[k].values[g])
    {
      GraphRestricts(spec, scope, e, inserted, k, g);
    }
  }

  /** A batch that passes them and leaves a valid graph deserves acceptance. */
  lemma PassesAccepted(spec: Spec, scope: Scope, rows: seq<RawRecord>, changes: seq<Change>)
    requires Checked(spec) && PreChecks(spec, scope, rows, changes)
    requires SourcesResolve(spec, scope, Edited(AsMap(rows), changes), Inserted(changes))
    requires ValidRows(spec, scope, RowsOf(Final(spec, scope, rows, changes)))
    ensures Admits(spec, scope, rows, changes)
  {
    hide RowOk, Fits, Checked, ChangeOk, Fill, ConstraintsAccept, Placeholders, Captured, Edited, Incoming;
    var m := AsMap(rows);
    var e := Edited(m, changes);
    AsMapRows(rows);
    EditedKeyed(m, changes);
    FilledKeyed(spec, scope, e, Inserted(changes));
    RowsOfValid(spec, scope, Placeholders(spec, e, Inserted(changes)));
    ZeroFromGraph(spec, scope, e, Inserted(changes));
    ZeroFitsChanges(spec, m, changes);
  }

  // ------------------------------------------------------------ deriving captures in place

  /** Filling captures never disturbs a price that some other capture reads. */
  lemma PriceStable(spec: Spec, scope: Scope, m: FactMap, done: set<Key>, r: RawRecord, c: CaptureRule)
    requires Checked(spec) && SourcesResolve(spec, scope, m, done) && Keyed(m)
    requires c in spec.captures && c.lineTable == r.table
    ensures PriceOf(spec, scope, Captured(spec, scope, m, done), r, c) == PriceOf(spec, scope, m, r, c)
  {
    hide Checked, Filled, IsCaptured, Priced;
    CapturePath(spec, c);
    match Lookup(r.values, c.productRef) {
      case Some(Ref(ref)) =>
        var product := Key(ref.table, ref.record);
        if product in done && product in m && TypeOf(spec, r.table, c.productRef) == Some(RefType(ref.table)) {
          var q := m[product];
          FilledTwice(spec, q, Prices(spec, scope, m, q));
          assert Lookup(Fill(spec, q, Prices(spec, scope, m, q)).values, c.productPrice) == Lookup(q.values, c.productPrice);
        }
      case _ =>
    }
  }

  lemma PricesStable(spec: Spec, scope: Scope, m: FactMap, done: set<Key>, r: RawRecord)
    requires Checked(spec) && SourcesResolve(spec, scope, m, done) && Keyed(m)
    ensures Priced(r, spec.captures, Prices(spec, scope, Captured(spec, scope, m, done), r))
            <==> Priced(r, spec.captures, Prices(spec, scope, m, r))
    ensures Fill(spec, r, Prices(spec, scope, Captured(spec, scope, m, done), r)) == Fill(spec, r, Prices(spec, scope, m, r))
  {
    hide Checked, PriceOf, Captured;
    var a, b := Prices(spec, scope, Captured(spec, scope, m, done), r), Prices(spec, scope, m, r);
    forall i | 0 <= i < |spec.captures| && spec.captures[i].lineTable == r.table
      ensures a(spec.captures[i]) == b(spec.captures[i])
    {
      PriceStable(spec, scope, m, done, r, spec.captures[i]);
    }
    SamePrices(r, spec.captures, a, b);
  }

  lemma {:induction false} SamePrices(r: RawRecord, rules: seq<CaptureRule>, a: Pricing, b: Pricing)
    requires forall i :: 0 <= i < |rules| && rules[i].lineTable == r.table ==> a(rules[i]) == b(rules[i])
    ensures Filled(r, rules, a) == Filled(r, rules, b)
  {
    if rules != [] {
      SamePrices(r, rules[..|rules| - 1], a, b);
    }
  }

  method FillPlaceholders(spec: Spec, row: RawRecord) returns (r: RawRecord)
    ensures r == Fill(spec, row, Zeroes())
  {
    r := row;
    for i := 0 to |spec.captures|
      invariant r == row.(values := Filled(row, spec.captures[..i], Zeroes()))
    {
      assert spec.captures[..i + 1][..i] == spec.captures[..i];
      var capture := spec.captures[i];
      if capture.lineTable == row.table {
        r := r.(values := r.values[capture.capturedPrice := Money(0)]);
      }
    }
    assert spec.captures[..|spec.captures|] == spec.captures;
  }

  /** The price behind the reference of a line whose captures are being filled. */
  method CapturePrice(spec: Spec, scope: Scope, candidate: FactMap, row: RawRecord, capture: CaptureRule)
    returns (price: Option<i64>)
    ensures price == PriceOf(spec, scope, candidate, row, capture)
  {
    match Lookup(row.values, capture.productRef) {
      case Some(Ref(reference)) =>
        if reference.scope != scope || TypeOf(spec, row.table, capture.productRef) != Some(RefType(reference.table)) {
          return None;
        }
        var product := Key(reference.table, reference.record);
        if product !in candidate {
          return None;
        }
        match Lookup(candidate[product].values, capture.productPrice) {
          case Some(Money(money)) => return Some(money);
          case _ => return None;
        }
      case _ => return None;
    }
  }

  method CaptureRow(spec: Spec, scope: Scope, candidate: FactMap, row: RawRecord) returns (r: Option<RawRecord>)
    requires Checked(spec)
    ensures var pricing := Prices(spec, scope, candidate, row);
            r == if Priced(row, spec.captures, pricing) then Some(Fill(spec, row, pricing)) else None
  {
    hide Checked, PriceOf;
    ghost var pricing := Prices(spec, scope, candidate, row);
    var filled := row;
    for i := 0 to |spec.captures|
      invariant filled == row.(values := Filled(row, spec.captures[..i], pricing))
      invariant Priced(row, spec.captures[..i], pricing)
    {
      assert spec.captures[..i + 1][..i] == spec.captures[..i];
      var capture := spec.captures[i];
      if capture.lineTable == row.table {
        CapturePathKept(spec, row, spec.captures[..i], pricing, capture);
        PriceByPath(spec, scope, candidate, row, filled, capture);
        var price := CapturePrice(spec, scope, candidate, filled, capture);
        match price {
          case None => return None;
          case Some(money) =>
            filled := filled.(values := filled.values[capture.capturedPrice := Money(money)]);
        }
      }
    }
    assert spec.captures[..|spec.captures|] == spec.captures;
    r := Some(filled);
  }

  /** A price depends on the line through its table and its reference only. */
  lemma PriceByPath(spec: Spec, scope: Scope, m: FactMap, a: RawRecord, b: RawRecord, c: CaptureRule)
    requires a.table == b.table && Lookup(a.values, c.productRef) == Lookup(b.values, c.productRef)
    ensures PriceOf(spec, scope, m, a, c) == PriceOf(spec, scope, m, b, c)
  {
  }

  /** The product reference of a line is never one of the fields being filled. */
  lemma CapturePathKept(spec: Spec, row: RawRecord, rules: seq<CaptureRule>, pricing: Pricing, c: CaptureRule)
    requires Checked(spec) && c in spec.captures && rules <= spec.captures && Priced(row, rules, pricing)
    requires c.lineTable == row.table
    ensures Lookup(Filled(row, rules, pricing), c.productRef) == Lookup(row.values, c.productRef)
  {
    assert rules == spec.captures[..|rules|];
    assert StrictlySorted(CaptureKey, spec.captures);
    CapturePath(spec, c);
    FilledAt(row, rules, pricing);
    assert !Destination(rules, row.table, c.productRef);
  }

  // ------------------------------------------------------------ the steps of a batch

  /** Input is bounded before any of it is copied. */
  method CheckIncoming(changes: seq<Change>) returns (ok: bool)
    ensures ok <==> Fits(Incoming(changes)) && forall i, f :: (0 <= i < |changes| && !changes[i].Delete? && f in changes[i].row.values)
                                                              ==> TextFits(changes[i].row.values[f])
  {
    hide Fits, TextFits;
    var incoming: seq<RawRecord> := [];
    for i := 0 to |changes|
      invariant incoming == Incoming(changes[..i])
    {
      assert changes[..i + 1][..i] == changes[..i];
      if !changes[i].Delete? {
        incoming := incoming + [changes[i].row];
      }
    }
    assert changes[..|changes|] == changes;
    if !Fits(incoming) {
      return false;
    }
    IncomingRows(changes);
    for i := 0 to |incoming|
      invariant forall j, f :: 0 <= j < i && f in incoming[j].values ==> TextFits(incoming[j].values[f])
    {
      var row := incoming[i];
      if exists f :: f in row.values && !TextFits(row.values[f]) {
        assert row in incoming;
        return false;
      }
    }
    forall i, f | 0 <= i < |changes| && !changes[i].Delete? && f in changes[i].row.values
      ensures TextFits(changes[i].row.values[f])
    {
      assert changes[i].row in incoming;
    }
    ok := true;
  }

  function Among(keys: seq<Key>): set<Key> {
    set k | k in keys
  }

  lemma EditsStep(spec: Spec, m: FactMap, changes: seq<Change>, i: nat)
    requires i < |changes| && EditsOk(spec, m, changes[..i])
    ensures Edited(m, changes[..i + 1]) == Edit(Edited(m, changes[..i]), changes[i])
    ensures Touched(changes[..i + 1]) == Touched(changes[..i]) + {ChangeKey(changes[i])}
    ensures Inserted(changes[..i + 1]) == Inserted(changes[..i]) + (if changes[i].Insert? then {ChangeKey(changes[i])} else {})
    ensures Deleted(changes[..i + 1]) == Deleted(changes[..i]) + (if changes[i].Delete? then {ChangeKey(changes[i])} else {})
    ensures EditsOk(spec, m, changes[..i + 1]) <==>
              ChangeKey(changes[i]) !in Touched(changes[..i]) && ChangeOk(spec, m, changes[i])
    ensures ChangeKey(changes[i]) !in Touched(changes[..i]) ==>
              (ChangeOk(spec, Edited(m, changes[..i]), changes[i]) <==> ChangeOk(spec, m, changes[i]))
  {
    hide CaptureFree, CaptureKept, ChangeOk;
    var next, front := changes[..i + 1], changes[..i];
    assert next[..i] == front && next[i] == changes[i];
    assert forall j :: 0 <= j < i ==> next[j] == front[j];
    TouchedLast(next);
    if ChangeKey(changes[i]) in Touched(front) {
      var j :| 0 <= j < i && ChangeKey(front[j]) == ChangeKey(changes[i]);
      assert ChangeKey(next[j]) == ChangeKey(next[i]);
    } else {
      UntouchedStep(spec, m, front, changes[i]);
      forall j | 0 <= j < i
        ensures ChangeKey(next[j]) != ChangeKey(next[i])
      {
        assert ChangeKey(front[j]) in Touched(front);
      }
    }
  }

  lemma UntouchedStep(spec: Spec, m: FactMap, front: seq<Change>, c: Change)
    requires DistinctKeys(ChangeKey, front) && ChangeKey(c) !in Touched(front)
    ensures ChangeOk(spec, Edited(m, front), c) <==> ChangeOk(spec, m, c)
  {
    hide CaptureFree, CaptureKept, Edited;
    EditedReflects(m, front);
  }

  lemma EditsPrefix(spec: Spec, m: FactMap, changes: seq<Change>, i: nat)
    requires i <= |changes| && EditsOk(spec, m, changes)
    ensures EditsOk(spec, m, changes[..i])
  {
    hide ChangeOk;
  }

  method EditCandidate(spec: Spec, before: FactMap, changes: seq<Change>)
    returns (r: Option<(FactMap, seq<Key>, seq<Key>)>)
    ensures r.Some? <==> EditsOk(spec, before, changes)
    ensures r.Some? ==>
              var (candidate, inserted, deleted) := r.value;
              && candidate == Edited(before, changes)
              && Among(inserted) == Inserted(changes)
              && Among(deleted) == Deleted(changes)
              && forall a, b :: 0 <= a < b < |inserted| ==> inserted[a] != inserted[b]
  {
    hide CaptureFree, CaptureKept, EditsOk, Touched, Inserted, Deleted, Edited;
    var candidate := before;
    var touched: set<Key> := {};
    var inserted: seq<Key> := [];
    var deleted: seq<Key> := [];
    NoEdits(spec, before);
    assert changes[..0] == [];
    for i := 0 to |changes|
      invariant EditsOk(spec, before, changes[..i])
      invariant candidate == Edited(before, changes[..i])
      invariant touched == Touched(changes[..i])
      invariant Among(inserted) == Inserted(changes[..i])
      invariant Among(deleted) == Deleted(changes[..i])
      invariant forall k :: k in inserted ==> k in touched
      invariant forall a, b :: 0 <= a < b < |inserted| ==> inserted[a] != inserted[b]
    {
      var change := changes[i];
      var key := ChangeKey(change);
      EditsStep(spec, before, changes, i);
      if EditsOk(spec, before, changes) {
        EditsPrefix(spec, before, changes, i + 1);
      }
      if key in touched {
        return None;
      }
      touched := touched + {key};
      match change {
        case Insert(row) =>
          if key in candidate || !CaptureFree(spec, row) {
            return None;
          }
          inserted := inserted + [key];
          candidate := candidate[key := row];
        case Replace(row) =>
          if key !in candidate {
            return None;
          }
          if !CaptureKept(spec, candidate[key], row) {
            return None;
          }
          candidate := candidate[key := row];
        case Delete(_, _) =>
          if key !in candidate {
            return None;
          }
          candidate := candidate - {key};
          deleted := deleted + [key];
      }
    }
    assert changes[..|changes|] == changes;
    r := Some((candidate, inserted, deleted));
  }

  lemma NoEdits(spec: Spec, m: FactMap)
    ensures EditsOk(spec, m, []) && Edited(m, []) == m && Touched([]) == {} && Inserted([]) == {} && Deleted([]) == {}
  {
  }

  predicate RefersTo(v: Value, scope: Scope, key: Key) {
    v.Ref? && v.ref.scope == scope && Key(v.ref.table, v.ref.record) == key
  }

  predicate ReferencedIn(m: FactMap, scope: Scope, key: Key) {
    exists k, f :: k in m && f in m[k].values && RefersTo(m[k].values[f], scope, key)
  }

  /** Restrict-delete: does a surviving row still reference a deleted one? */
  method Restricted(scope: Scope, candidate: FactMap, deleted: seq<Key>) returns (found: bool)
    ensures found <==> exists i :: 0 <= i < |deleted| && ReferencedIn(candidate, scope, deleted[i])
  {
    for i := 0 to |deleted|
      invariant forall j :: 0 <= j < i ==> !ReferencedIn(candidate, scope, deleted[j])
    {
      if ReferencedIn(candidate, scope, deleted[i]) {
        return true;
      }
    }
    found := false;
  }

  /** A reference to a deleted row dangles in the candidate. */
  lemma ReferencedDangles(m: FactMap, scope: Scope, deleted: seq<Key>)
    requires forall k :: k in deleted ==> k !in m
    ensures (exists i :: 0 <= i < |deleted| && ReferencedIn(m, scope, deleted[i])) ==>
              exists k, f :: k in m && f in m[k].values && Dangles(scope, m.Keys, m[k].values[f])
  {
    if exists i :: 0 <= i < |deleted| && ReferencedIn(m, scope, deleted[i]) {
      var i :| 0 <= i < |deleted| && ReferencedIn(m, scope, deleted[i]);
      var k, f :| k in m && f in m[k].values && RefersTo(m[k].values[f], scope, deleted[i]);
      assert deleted[i] in deleted;
      assert Dangles(scope, m.Keys, m[k].values[f]);
    }
  }

  method FillCandidate(spec: Spec, candidate: FactMap, inserted: seq<Key>) returns (graph: FactMap)
    requires forall k :: k in inserted ==> k in candidate
    requires forall a, b :: 0 <= a < b < |inserted| ==> inserted[a] != inserted[b]
    ensures graph == Placeholders(spec, candidate, Among(inserted))
  {
    hide Fill;
    graph := candidate;
    for i := 0 to |inserted|
      invariant graph.Keys == candidate.Keys
      invariant forall k :: k in candidate ==>
                  graph[k] == if k in inserted[..i] then Fill(spec, candidate[k], Zeroes()) else candidate[k]
    {
      var row := FillPlaceholders(spec, graph[inserted[i]]);
      graph := graph[inserted[i] := row];
    }
    assert inserted[..|inserted|] == inserted;
  }

  method CaptureCandidate(spec: Spec, scope: Scope, start: FactMap, inserted: seq<Key>) returns (r: Option<FactMap>)
    requires Checked(spec) && Keyed(start)
    requires forall k :: k in inserted ==> k in start
    requires forall a, b :: 0 <= a < b < |inserted| ==> inserted[a] != inserted[b]
    ensures r.Some? <==> SourcesResolve(spec, scope, start, Among(inserted))
    ensures r.Some? ==> r.value == Captured(spec, scope, start, Among(inserted))
  {
    hide Checked, Fill, PriceOf, Priced;
    var candidate := start;
    for i := 0 to |inserted|
      invariant SourcesResolve(spec, scope, start, Among(inserted[..i]))
      invariant candidate == Captured(spec, scope, start, Among(inserted[..i]))
    {
      var key := inserted[i];
      ghost var done := Among(inserted[..i]);
      assert key !in done;
      PricesStable(spec, scope, start, done, start[key]);
      var row := CaptureRow(spec, scope, candidate, candidate[key]);
      match row {
        case None =>
          return None;
        case Some(filled) =>
          assert Among(inserted[..i + 1]) == done + {key};
          candidate := candidate[key := filled];
      }
    }
    assert inserted[..|inserted|] == inserted;
    r := Some(candidate);
  }

  // ------------------------------------------------------------ the store

  class RelationStore {
    const spec: Spec
    const scope: Scope
    var records: seq<RawRecord>

    ghost predicate Valid()
      reads this
    {
      Checked(spec) && CheckedRecords(spec, scope, records)
    }

    constructor (spec: Spec, scope: Scope, records: seq<RawRecord>)
      requires Checked(spec) && CheckedRecords(spec, scope, records)
      ensures Valid() && this.spec == spec && this.scope == scope && this.records == records
    {
      this.spec := spec;
      this.scope := scope;
      this.records := records;
    }

    /** `from_checked_snapshot`; with no rows, `new`. */
    static method Restore(spec: Spec, scope: Scope, rows: seq<RawRecord>) returns (r: Option<RelationStore>)
      requires Checked(spec)
      ensures r.Some? <==> ValidRows(spec, scope, rows)
      ensures r.Some? ==> fresh(r.value) && r.value.Valid() && r.value.spec == spec && r.value.scope == scope
                          && r.value.records == Canonical(spec, rows)
    {
      var checked := ValidateRecords(spec, scope, rows);
      match checked {
        case None => return None;
        case Some(records) =>
          CanonicalChecked(spec, scope, rows);
          var store := new RelationStore(spec, scope, records);
          r := Some(store);
      }
    }

    /** `apply_batch`: the whole batch, or nothing. */
    method ApplyBatch(changes: seq<Change>) returns (ok: bool)
      requires Valid()
      modifies this`records
      ensures Valid()
      ensures ok <==> Admits(spec, scope, old(records), changes)
      ensures records == if ok then After(spec, scope, old(records), changes) else old(records)
    {
      hide Checked, ValidRows, Fits, ChangeOk, CaptureFree, CaptureKept, Fill, Listing, Edited, Priced, Inserted, Deleted,
        Touched, SourcesResolve, EditsOk, Placeholders, Captured, TextFits, AsMap, Incoming;
      if |changes| > MAX_BATCH {
        return false;
      }
      if Admits(spec, scope, records, changes) {
        AcceptedPasses(spec, scope, records, changes);
      }
      var bounded := CheckIncoming(changes);
      if !bounded {
        return false;
      }
      var before := AsMap(records);
      var edits := EditCandidate(spec, before, changes);
      match edits {
        case None => return false;
        case Some((candidate, inserted, deleted)) =>
          AsMapRows(records);
          EditedKeyed(before, changes);
          DeletedGone(spec, before, changes);
          var graph := FillCandidate(spec, candidate, inserted);
          ReferencedDangles(candidate, scope, deleted);
          var restricted := Restricted(scope, candidate, deleted);
          if restricted {
            return false;
          }
          var placeholders := ValidateRecords(spec, scope, RowsOf(graph));
          if placeholders.None? {
            return false;
          }
          var captured := CaptureCandidate(spec, scope, candidate, inserted);
          match captured {
            case None => return false;
            case Some(final) =>
              var checked := ValidateRecords(spec, scope, RowsOf(final));
              match checked {
                case None => return false;
                case Some(rows) =>
                  NothingDangles(spec, scope, before, changes);
                  PassesAccepted(spec, scope, records, changes);
                  CanonicalChecked(spec, scope, RowsOf(final));
                  records := rows;
                  ok := true;
              }
          }
      }
    }
  }

  lemma DeletedGone(spec: Spec, m: FactMap, changes: seq<Change>)
    requires EditsOk(spec, m, changes)
    ensures forall k :: k in Deleted(changes) ==> k !in Edited(m, changes)
    ensures forall k :: k in Inserted(changes) ==> k in Edited(m, changes)
  {
    hide ChangeOk;
    EditedReflects(m, changes);
  }

  /** Once the placeholder graph is valid nothing dangles, whatever was deleted. */
  lemma NothingDangles(spec: Spec, scope: Scope, m: FactMap, changes: seq<Change>)
    requires Checked(spec) && Keyed(m) && EditsOk(spec, m, changes)
    requires ValidRows(spec, scope, RowsOf(Placeholders(spec, Edited(m, changes), Inserted(changes))))
    ensures var e := Edited(m, changes);
            forall k, f :: k in e && f in e[k].values ==> !Dangles(scope, e.Keys, e[k].values[f])
  {
    hide RowOk, Fits, Checked, ChangeOk, Placeholders, Edited;
    var e := Edited(m, changes);
    EditedKeyed(m, changes);
    OpenAfterEdits(spec, m, changes);
    FilledKeyed(spec, scope, e, Inserted(changes));
    RowsOfValid(spec, scope, Placeholders(spec, e, Inserted(changes)));
    forall k, f | k in e && f in e[k].values
      ensures !Dangles(scope, e.Keys, e[k].values[f])
    {
      GraphRestricts(spec, scope, e, Inserted(changes), k, f);
    }
  }
}
