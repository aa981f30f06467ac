/**
 The authoring draft: the difference between the saved rows and the edited rows becomes one batch,
 so new lines capture their prices through the same store that owns them everywhere else.
 */
module Drafts {
  import opened Wrappers
  import opened Sorting
  import opened AppSpec
  import opened Records
  import opened Validation
  import opened Facts
  import opened Relations
  import opened RelationRuns

  // ------------------------------------------------------------ the difference

  function Upserts(original: FactMap, next: seq<RawRecord>): seq<Change> {
    if next == [] then []
    else
      var row := next[|next| - 1];
      var key := RecordKey(row);
      Upserts(original, next[..|next| - 1])
      + (if key in original then if original[key] == row then [] else [Replace(row)] else [Change.Insert(row)])
  }

  function Removals(rows: seq<RawRecord>, seen: set<Key>): seq<Change> {
    if rows == [] then []
    else
      var row := rows[|rows| - 1];
      Removals(rows[..|rows| - 1], seen) + (if RecordKey(row) in seen then [] else [Delete(row.table, row.id)])
  }

  function DraftChanges(before: seq<RawRecord>, next: seq<RawRecord>): seq<Change> {
    Upserts(AsMap(before), next) + Removals(RowsOf(AsMap(before)), KeysOf(next))
  }

  /** What the edited rows mean: their canonical form, with the captures of the new rows filled from the current prices. */
  function DraftResult(spec: Spec, scope: Scope, before: seq<RawRecord>, next: seq<RawRecord>): seq<RawRecord> {
    Canonical(spec, RowsOf(Captured(spec, scope, AsMap(next), KeysOf(next) - KeysOf(before))))
  }

  /** `apply_draft_changes`. */
  method ApplyDraftChanges(spec: Spec, scope: Scope, before: seq<RawRecord>, next: seq<RawRecord>)
    returns (r: Option<seq<RawRecord>>)
    requires Checked(spec)
    ensures r.Some? <==> ValidRows(spec, scope, before) && DistinctKeys(RecordKey, next)
                         && Admits(spec, scope, Canonical(spec, before), DraftChanges(before, next))
    ensures r.Some? ==> r.value == DraftResult(spec, scope, before, next)
  {
    hide Checked, ValidRows, Admits, After, DraftResult, Canonical, CheckedRecords;
    var history := ValidateRecords(spec, scope, before);
    if history.None? {
      return None;
    }
    CanonicalChecked(spec, scope, before);
    CheckedCanonical(spec, scope, history.value);
    var restored := RelationStore.Restore(spec, scope, history.value);
    match restored {
      case None => return None;
      case Some(store) =>
        var diff := Diff(before, next);
        match diff {
          case None => return None;
          case Some(changes) =>
            var ok := store.ApplyBatch(changes);
            if !ok {
              return None;
            }
            DraftMeaning(spec, scope, before, next);
            r := Some(store.records);
        }
    }
  }

  lemma CheckedCanonical(spec: Spec, scope: Scope, rows: seq<RawRecord>)
    requires CheckedRecords(spec, scope, rows)
    ensures ValidRows(spec, scope, rows) && Canonical(spec, rows) == rows
  {
    CheckedFixed(spec, scope, rows);
  }

  method Diff(before: seq<RawRecord>, next: seq<RawRecord>) returns (r: Option<seq<Change>>)
    ensures r.Some? <==> DistinctKeys(RecordKey, next)
    ensures r.Some? ==> r.value == DraftChanges(before, next)
  {
    var original := AsMap(before);
    var seen: set<Key> := {};
    var changes: seq<Change> := [];
    for i := 0 to |next|
      invariant seen == KeysOf(next[..i]) && DistinctKeys(RecordKey, next[..i])
      invariant changes == Upserts(original, next[..i])
    {
      assert next[..i + 1][..i] == next[..i];
      KeysOfStep(next, i);
      var row := next[i];
      var key := RecordKey(row);
      if key in seen {
        var j :| 0 <= j < i && RecordKey(next[..i][j]) == key;
        assert RecordKey(next[j]) == RecordKey(next[i]);
        return None;
      }
      seen := seen + {key};
      if key in original {
        if original[key] != row {
          changes := changes + [Replace(row)];
        }
      } else {
        changes := changes + [Change.Insert(row)];
      }
    }
    assert next[..|next|] == next;
    var rows := RowsOf(original);
    ghost var upserts := changes;
    for i := 0 to |rows|
      invariant changes == upserts + Removals(rows[..i], seen)
    {
      assert rows[..i + 1][..i] == rows[..i];
      if RecordKey(rows[i]) !in seen {
        changes := changes + [Delete(rows[i].table, rows[i].id)];
      }
    }
    assert rows[..|rows|] == rows;
    r := Some(changes);
  }

  // ------------------------------------------------------------ what the difference contains

  lemma {:induction false} UpsertsAre(original: FactMap, next: seq<RawRecord>)
    ensures forall c :: c in Upserts(original, next) ==>
              && !c.Delete? && c.row in next
              && (c.Insert? <==> RecordKey(c.row) !in original)
    ensures forall row :: row in next ==>
              && (RecordKey(row) !in original ==> Change.Insert(row) in Upserts(original, next))
              && (RecordKey(row) in original && original[RecordKey(row)] != row ==> Replace(row) in Upserts(original, next))
    ensures forall c :: c in Upserts(original, next) && c.Replace? ==> original[RecordKey(c.row)] != c.row
  {
    if next != [] {
      var n := |next| - 1;
      UpsertsAre(original, next[..n]);
      assert next == next[..n] + [next[n]];
    }
  }

  lemma {:induction false} RemovalsAre(rows: seq<RawRecord>, seen: set<Key>)
    ensures forall c :: c in Removals(rows, seen) ==> c.Delete? && ChangeKey(c) in KeysOf(rows) && ChangeKey(c) !in seen
    ensures forall k :: k in KeysOf(rows) && k !in seen ==> Delete(k.table, k.id) in Removals(rows, seen)
  {
    if rows != [] {
      var n := |rows| - 1;
      RemovalsAre(rows[..n], seen);
      KeysOfStep(rows, n);
      assert rows[..n + 1] == rows;
    }
  }

  lemma CanonicalMap(spec: Spec, rows: seq<RawRecord>)
    requires DistinctKeys(RecordKey, rows)
    ensures Canonical(spec, rows) == RowsOf(NormalFacts(spec, AsMap(rows)))
    ensures AsMap(Canonical(spec, rows)) == NormalFacts(spec, AsMap(rows))
  {
    hide Listing, Sort, Normal;
    var m := AsMap(rows);
    AsMapRows(rows);
    SortedIsListing(rows);
    NormalListing(spec, m.Keys, m);
    assert NormalFacts(spec, m).Keys == m.Keys;
    NormalKeyed(spec, m);
    MapOfRows(NormalFacts(spec, m));
  }

  /** The edits at one identity: written as the author left it, kept in canonical form, or gone. */
  lemma DraftRow(spec: Spec, before: seq<RawRecord>, next: seq<RawRecord>, base: FactMap, e: FactMap, k: Key)
    requires DistinctKeys(RecordKey, before) && DistinctKeys(RecordKey, next)
    requires base == NormalFacts(spec, AsMap(before)) && Reflects(base, DraftChanges(before, next), e)
    ensures k in e <==> k in AsMap(next)
    ensures k in e ==>
              e[k] == if k in AsMap(before) && AsMap(before)[k] == AsMap(next)[k] then Normal(spec, AsMap(next)[k]) else AsMap(next)[k]
    ensures k in Inserted(DraftChanges(before, next)) <==> k in AsMap(next) && k !in AsMap(before)
  {
    hide RowsOf, Upserts, Removals, Normal, AsMap;
    var m, n := AsMap(before), AsMap(next);
    AsMapRows(before);
    AsMapRows(next);
    RowsOfKeys(m);
    UpsertsAre(m, next);
    RemovalsAre(RowsOf(m), KeysOf(next));
    var changes := DraftChanges(before, next);
    OnlyChange(before, next, k);
    if k in n {
      AsMapIn(next, k);
      var row := n[k];
      if k !in m {
        ChangeAt(changes, Change.Insert(row));
      } else if m[k] != row {
        ChangeAt(changes, Replace(row));
      }
    } else if k in m {
      ChangeAt(changes, Delete(k.table, k.id));
    }
  }

  lemma ChangeAt(changes: seq<Change>, c: Change)
    requires c in changes
    ensures exists i :: 0 <= i < |changes| && changes[i] == c
  {
  }

  /** The difference mentions an identity only where the drafts differ there, and inserts only new identities. */
  lemma OnlyChange(before: seq<RawRecord>, next: seq<RawRecord>, k: Key)
    requires DistinctKeys(RecordKey, next)
    ensures k in Touched(DraftChanges(before, next)) ==>
              if k in AsMap(next) then k !in AsMap(before) || AsMap(before)[k] != AsMap(next)[k] else k in AsMap(before)
    ensures k in Inserted(DraftChanges(before, next)) ==> k in AsMap(next) && k !in AsMap(before)
  {
    hide RowsOf, Upserts, Removals, AsMap;
    var m, n := AsMap(before), AsMap(next);
    AsMapRows(before);
    AsMapRows(next);
    RowsOfKeys(m);
    UpsertsAre(m, next);
    RemovalsAre(RowsOf(m), KeysOf(next));
    var changes := DraftChanges(before, next);
    if k in Touched(changes) {
      var i :| 0 <= i < |changes| && ChangeKey(changes[i]) == k;
      DraftChange(before, next, changes[i]);
    }
    if k in Inserted(changes) {
      var i :| 0 <= i < |changes| && changes[i].Insert? && ChangeKey(changes[i]) == k;
      DraftChange(before, next, changes[i]);
    }
  }

  lemma DraftChange(before: seq<RawRecord>, next: seq<RawRecord>, c: Change)
    requires DistinctKeys(RecordKey, next) && c in DraftChanges(before, next)
    ensures var m, n := AsMap(before), AsMap(next);
            var k := ChangeKey(c);
            match c
            case Insert(row) => k in n && k !in m
            case Replace(row) => k in n && k in m && m[k] != n[k]
            case Delete(_, _) => k !in n && k in m
  {
    hide RowsOf, Upserts, Removals, AsMap;
    var m := AsMap(before);
    AsMapRows(before);
    AsMapRows(next);
    RowsOfKeys(m);
    UpsertsAre(m, next);
    RemovalsAre(RowsOf(m), KeysOf(next));
    assert c in Upserts(m, next) || c in Removals(RowsOf(m), KeysOf(next));
    if !c.Delete? {
      var i :| 0 <= i < |next| && next[i] == c.row;
      assert AsMap(next)[RecordKey(next[i])] == next[i];
      assert RecordKey(next[i]) in KeysOf(next);
    }
  }

  // ------------------------------------------------------------ the meaning of a draft

  /** A row may be priced and normalised in either order. */
  lemma PriceOfNormal(spec: Spec, scope: Scope, e: FactMap, n: FactMap, r: RawRecord, c: CaptureRule)
    requires Checked(spec) && c in spec.captures && c.lineTable == r.table
    requires Keyed(e) && Keyed(n) && e.Keys == n.Keys
    requires forall k :: k in n ==> e[k] == n[k] || e[k] == Normal(spec, n[k])
    ensures PriceOf(spec, scope, e, r, c) == PriceOf(spec, scope, n, r, c)
  {
    hide Checked, Normal;
    CaptureFields(spec, c);
    match Lookup(r.values, c.productRef) {
      case Some(Ref(ref)) =>
        var product := Key(ref.table, ref.record);
        if product in n && TypeOf(spec, r.table, c.productRef) == Some(RefType(ref.table)) {
          NormalGet(spec, n[product], c.productPrice);
        }
      case _ =>
    }
  }

  lemma NormalTwice(spec: Spec, r: RawRecord)
    ensures Normal(spec, Normal(spec, r)) == Normal(spec, r)
  {
    if FindTable(spec.tables, r.table).Some? {
      NormalValuesOf(FindTable(spec.tables, r.table).value.fields, r.values);
    }
  }

  lemma SameFinal(spec: Spec, scope: Scope, e: FactMap, n: FactMap, inserted: set<Key>)
    requires Checked(spec) && Keyed(e) && Keyed(n) && e.Keys == n.Keys
    requires forall k :: k in n ==> e[k] == n[k] || e[k] == Normal(spec, n[k])
    requires forall k :: k in n && k in inserted ==> e[k] == n[k]
    ensures NormalFacts(spec, Captured(spec, scope, e, inserted)) == NormalFacts(spec, Captured(spec, scope, n, inserted))
  {
    hide Checked, Normal, PriceOf, Fill;
    var a, b := Captured(spec, scope, e, inserted), Captured(spec, scope, n, inserted);
    forall k | k in n
      ensures Normal(spec, a[k]) == Normal(spec, b[k])
    {
      NormalTwice(spec, n[k]);
      if k in inserted {
        forall i | 0 <= i < |spec.captures| && spec.captures[i].lineTable == n[k].table
          ensures PriceOf(spec, scope, e, n[k], spec.captures[i]) == PriceOf(spec, scope, n, n[k], spec.captures[i])
        {
          PriceOfNormal(spec, scope, e, n, n[k], spec.captures[i]);
        }
        SameFill(spec, n[k], Prices(spec, scope, e, n[k]), Prices(spec, scope, n, n[k]));
      }
    }
    assert NormalFacts(spec, a).Keys == n.Keys == NormalFacts(spec, b).Keys;
  }

  lemma SameFill(spec: Spec, r: RawRecord, a: Pricing, b: Pricing)
    requires forall i :: 0 <= i < |spec.captures| && spec.captures[i].lineTable == r.table ==> a(spec.captures[i]) == b(spec.captures[i])
    ensures Fill(spec, r, a) == Fill(spec, r, b)
  {
    SamePrices(r, spec.captures, a, b);
  }

  /** An accepted draft publishes exactly what its rows mean. */
  lemma DraftMeaning(spec: Spec, scope: Scope, before: seq<RawRecord>, next: seq<RawRecord>)
    requires Checked(spec) && ValidRows(spec, scope, before) && DistinctKeys(RecordKey, next)
    requires Admits(spec, scope, Canonical(spec, before), DraftChanges(before, next))
    ensures After(spec, scope, Canonical(spec, before), DraftChanges(before, next)) == DraftResult(spec, scope, before, next)
  {
    hide Checked, Canonical, RowsOf, DraftChanges, Captured, Normal, Edited, ChangeOk, AsMap, Fits, RowOk;
    var changes := DraftChanges(before, next);
    var base := AsMap(Canonical(spec, before));
    CanonicalMap(spec, before);
    AsMapRows(before);
    AsMapRows(next);
    AsMapRows(Canonical(spec, before));
    EditedReflects(base, changes);
    EditedKeyed(base, changes);
    var e, n := Edited(base, changes), AsMap(next);
    forall k
      ensures k in e.Keys <==> k in n.Keys
      ensures k in n ==> k in e && (e[k] == n[k] || e[k] == Normal(spec, n[k]))
    {
      DraftRow(spec, before, next, base, e, k);
    }
    assert e.Keys == n.Keys;
    forall k
      ensures k in Inserted(changes) <==> k in KeysOf(next) - KeysOf(before)
      ensures k in n && k in Inserted(changes) ==> k in e && e[k] == n[k]
    {
      DraftRow(spec, before, next, base, e, k);
    }
    var inserted := KeysOf(next) - KeysOf(before);
    assert Inserted(changes) == inserted;
    SameFinal(spec, scope, e, n, inserted);
    FilledKeyed(spec, scope, e, inserted);
    FilledKeyed(spec, scope, n, inserted);
    RowsOfValid(spec, scope, Captured(spec, scope, e, inserted));
    RowsOfValid(spec, scope, Captured(spec, scope, n, inserted));
  }

  // ------------------------------------------------------------ applying twice

  lemma {:induction false} NoUpserts(original: FactMap, next: seq<RawRecord>)
    requires forall i :: 0 <= i < |next| ==> RecordKey(next[i]) in original && original[RecordKey(next[i])] == next[i]
    ensures Upserts(original, next) == []
  {
    if next != [] {
      NoUpserts(original, next[..|next| - 1]);
    }
  }

  lemma {:induction false} NoRemovals(rows: seq<RawRecord>, seen: set<Key>)
    requires forall i :: 0 <= i < |rows| ==> RecordKey(rows[i]) in seen
    ensures Removals(rows, seen) == []
  {
    if rows != [] {
      NoRemovals(rows[..|rows| - 1], seen);
    }
  }

  /** Checked facts edited into themselves are accepted and come out unchanged. */
  lemma DraftFixed(spec: Spec, scope: Scope, rows: seq<RawRecord>)
    requires Checked(spec) && CheckedRecords(spec, scope, rows)
    ensures DraftChanges(rows, rows) == []
    ensures Admits(spec, scope, Canonical(spec, rows), DraftChanges(rows, rows))
    ensures DraftResult(spec, scope, rows, rows) == rows
  {
    hide Checked, Captured, Fits, RowOk, Sort, Listing;
    assert DistinctKeys(RecordKey, rows);
    AsMapRows(rows);
    RowsOfMap(rows);
    forall i | 0 <= i < |rows|
      ensures RecordKey(rows[i]) in KeysOf(rows)
    {
    }
    NoUpserts(AsMap(rows), rows);
    NoRemovals(rows, KeysOf(rows));
    CheckedFixed(spec, scope, rows);
    assert KeysOf(rows) - KeysOf(rows) == {};
    CapturesNothing(spec, scope, AsMap(rows));
    assert Inserted([]) == {};
  }

  lemma CapturesNothing(spec: Spec, scope: Scope, m: FactMap)
    ensures Captured(spec, scope, m, {}) == m
  {
  }

  /** Applying a draft to its own result changes nothing. */
  lemma DraftTwice(spec: Spec, scope: Scope, before: seq<RawRecord>, next: seq<RawRecord>)
    requires Checked(spec) && ValidRows(spec, scope, before) && DistinctKeys(RecordKey, next)
    requires Admits(spec, scope, Canonical(spec, before), DraftChanges(before, next))
    ensures var once := DraftResult(spec, scope, before, next);
            && ValidRows(spec, scope, once) && DistinctKeys(RecordKey, once)
            && Admits(spec, scope, Canonical(spec, once), DraftChanges(once, once))
            && DraftResult(spec, scope, once, once) == once
  {
    hide Checked, ValidRows, Admits, After, DraftResult, Canonical, CheckedRecords, DraftChanges;
    DraftMeaning(spec, scope, before, next);
    AdmittedChecked(spec, scope, Canonical(spec, before), DraftChanges(before, next));
    var once := DraftResult(spec, scope, before, next);
    DraftFixed(spec, scope, once);
    CheckedRows(spec, scope, once);
  }

  lemma CheckedRows(spec: Spec, scope: Scope, rows: seq<RawRecord>)
    requires CheckedRecords(spec, scope, rows)
    ensures ValidRows(spec, scope, rows) && DistinctKeys(RecordKey, rows)
  {
  }
}
