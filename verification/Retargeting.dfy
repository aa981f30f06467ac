/**
 Moving children between parents: by how much it changes the grand total of a roll-up, exactly when
 it changes nothing, and a store in which it does change something.
 */
module Retargeting {
  import opened Wrappers
  import opened Sorting
  import opened AppSpec
  import opened Records
  import opened Formulas
  import opened FormulaProofs
  import opened Rollups

  // ------------------------------------------------------------ what a row's value depends on

  /**
   The value of `e` on a row may depend on field `f` of other rows of `t`: through a roll-up over that
   reference, or over rows whose own summand reads it.
   */
  predicate Strays(fs: CheckedFormulas, table: TableId, e: Expression, h: nat, t: TableId, f: FieldId)
    decreases h
  {
    if h == 0 then false
    else match e
      case FieldValue(_) => false
      case Lookup(r, g) => RefTarget(fs.shape, table, r) == Ok(t) && g == f
      case Sum(child, r, v) => (child == t && r == f) || Reads(fs, child, v, h - 1, t, f)
      case Product(a, b) => Strays(fs, table, a, h - 1, t, f) || Strays(fs, table, b, h - 1, t, f)
      case Total(vs) => exists i :: 0 <= i < |vs| && Strays(fs, table, vs[i], h - 1, t, f)
      case Named(name) =>
        var k := FormulaKey(table, name);
        k in fs.definitions && Strays(fs, table, fs.definitions[k], h - 1, t, f)
  }

  /** References of the row, where it has any, lead to the tables their fields declare. */
  ghost predicate RefsTyped(shape: Shape, row: RawRecord) {
    forall r :: RefTarget(shape, row.table, r).Ok? && Get(row.values, r).Ref? ==>
      Get(row.values, r).ref.table == RefTarget(shape, row.table, r).value
  }

  lemma ServedRefsTyped(env: Env, row: RawRecord)
    requires Serves(env) && row in env.rows
    ensures RefsTyped(env.fs.shape, row)
  {
    forall r | RefTarget(env.fs.shape, row.table, r).Ok? && Get(row.values, r).Ref?
      ensures Get(row.values, r).ref.table == RefTarget(env.fs.shape, row.table, r).value
    {
      assert FieldServes(env, row, r);
    }
  }

  lemma LookupFixed(env: Env, rows': seq<RawRecord>, row: RawRecord, r: FieldId, g: FieldId, t: TableId, f: FieldId)
    requires Retargeted(env.rows, rows', t, f) && RefsTyped(env.fs.shape, row)
    requires LookupKind(env.fs.shape, row.table, r, g).Ok?
    requires !(RefTarget(env.fs.shape, row.table, r) == Ok(t) && g == f)
    ensures DenoteLookup(rows', row, r, g) == DenoteLookup(env.rows, row, r, g)
  {
    var v := Get(row.values, r);
    if v.Ref? {
      var key := Key(v.ref.table, v.ref.record);
      FindRetargeted(env.rows, rows', t, f, key);
      if FindRow(env.rows, key).Some? {
        SameField(FindRow(env.rows, key).value, FindRow(rows', key).value, t, f, g);
      }
    }
  }

  lemma SameRow(row: RawRecord, t: TableId, f: FieldId)
    ensures SameBut(row, row, t, f)
  {
  }

  /** A row that keeps its own values keeps its meaning, unless the expression strays to the moved reference. */
  lemma {:induction false} DenoteFixed(env: Env, rows': seq<RawRecord>, row: RawRecord, e: Expression, h: nat, t: TableId, f: FieldId)
    requires Serves(env) && Retargeted(env.rows, rows', t, f) && RefsTyped(env.fs.shape, row)
    requires Kind(env.fs, row.table, e, h).Some? && !Strays(env.fs, row.table, e, h, t, f)
    ensures Denote(env.fs, rows', row, e, h) == Denote(env.fs, env.rows, row, e, h)
    decreases h, 0, 0
  {
    match e
    case FieldValue(_) =>
    case Lookup(r, g) => LookupFixed(env, rows', row, r, g, t, f);
    case Sum(child, r, v) =>
      SameRow(row, t, f);
      ChildrenFrame(env, rows', row, row, child, r, v, h - 1, t, f, |env.rows|);
      assert env.rows[..|env.rows|] == env.rows && rows'[..|env.rows|] == rows';
    case Product(a, b) =>
      DenoteFixed(env, rows', row, a, h - 1, t, f);
      DenoteFixed(env, rows', row, b, h - 1, t, f);
    case Total(vs) =>
      TotalFixed(env, rows', row, vs, h - 1, t, f, |vs|);
      assert vs[..|vs|] == vs;
    case Named(name) =>
      DenoteFixed(env, rows', row, env.fs.definitions[FormulaKey(row.table, name)], h - 1, t, f);
  }

  lemma {:induction false} TotalFixed(env: Env, rows': seq<RawRecord>, row: RawRecord, vs: seq<Expression>, h: nat,
                                      t: TableId, f: FieldId, n: nat)
    requires Serves(env) && n <= |vs| && Retargeted(env.rows, rows', t, f) && RefsTyped(env.fs.shape, row)
    requires forall i :: 0 <= i < |vs| ==> Kind(env.fs, row.table, vs[i], h).Some? && !Strays(env.fs, row.table, vs[i], h, t, f)
    ensures DenoteTotal(env.fs, rows', row, vs[..n], h) == DenoteTotal(env.fs, env.rows, row, vs[..n], h)
    decreases h, 1, n
  {
    hide Denote, Kind, Serves, Strays;
    if n > 0 {
      assert vs[..n][..n - 1] == vs[..n - 1];
      TotalFixed(env, rows', row, vs, h, t, f, n - 1);
      DenoteFixed(env, rows', row, vs[n - 1], h, t, f);
    }
  }

  // ------------------------------------------------------------ the change of the grand total

  /** What a row adds to the grand total, by the facts `store`. */
  ghost function Worth(fs: CheckedFormulas, store: seq<RawRecord>, c: RawRecord, child: TableId, r: FieldId, v: Expression, h: nat): int {
    if Linked(c, child, r) then OrZero(Denote(fs, store, c, v, h)) else 0
  }

  /** The worth of the moved rows among the first `n`, as they stand in `these`, by the facts `store`. */
  ghost function MovedWorth(fs: CheckedFormulas, store: seq<RawRecord>, these: seq<RawRecord>, those: seq<RawRecord>,
                            child: TableId, r: FieldId, v: Expression, h: nat, n: nat): int
    requires n <= |these| == |those|
  {
    if n == 0 then 0
    else
      MovedWorth(fs, store, these, those, child, r, v, h, n - 1)
      + (if these[n - 1] != those[n - 1] then Worth(fs, store, these[n - 1], child, r, v, h) else 0)
  }

  /** The stores before and after children of `child` changed what field `r` of them refers to. */
  ghost predicate Moves(env: Env, rows': seq<RawRecord>, parents: TableId, child: TableId, r: FieldId, v: Expression, h: nat) {
    && Serves(env) && Serves(env.(rows := rows')) && RefTarget(env.fs.shape, child, r) == Ok(parents)
    && Retargeted(env.rows, rows', child, r)
    && Kind(env.fs, child, v, h).Some? && !Strays(env.fs, child, v, h, child, r)
  }

  lemma MovedRow(env: Env, rows': seq<RawRecord>, parents: TableId, child: TableId, r: FieldId, v: Expression, h: nat, i: nat)
    requires Moves(env, rows', parents, child, r, v, h) && i < |rows'|
    ensures Worth(env.fs, rows', rows'[i], child, r, v, h) == Worth(env.fs, env.rows, rows'[i], child, r, v, h)
  {
    hide Denote, Serves, Strays, Kind;
    if rows'[i].table == child {
      ServedRefsTyped(env.(rows := rows'), rows'[i]);
      DenoteFixed(env, rows', rows'[i], v, h, child, r);
    }
  }

  lemma {:induction false} LinkedShift(env: Env, rows': seq<RawRecord>, parents: TableId, child: TableId, r: FieldId, v: Expression,
                                       h: nat, n: nat)
    requires Moves(env, rows', parents, child, r, v, h) && n <= |rows'|
    ensures LinkedTotal(env.fs, rows', child, r, v, h, rows'[..n]) - LinkedTotal(env.fs, env.rows, child, r, v, h, env.rows[..n])
            == MovedWorth(env.fs, env.rows, rows', env.rows, child, r, v, h, n)
               - MovedWorth(env.fs, env.rows, env.rows, rows', child, r, v, h, n)
  {
    hide Denote, Serves, Strays, Kind;
    if n > 0 {
      assert env.rows[..n][..n - 1] == env.rows[..n - 1] && rows'[..n][..n - 1] == rows'[..n - 1];
      LinkedShift(env, rows', parents, child, r, v, h, n - 1);
      MovedRow(env, rows', parents, child, r, v, h, n - 1);
    }
  }

  /** The grand total changes by what the moved rows are worth now less what they were worth, both by the facts before the move. */
  lemma RetargetShift(env: Env, rows': seq<RawRecord>, parents: TableId, child: TableId, r: FieldId, v: Expression, h: nat)
    requires Moves(env, rows', parents, child, r, v, h)
    ensures GrandTotal(env.fs, rows', parents, child, r, v, h, rows') - GrandTotal(env.fs, env.rows, parents, child, r, v, h, env.rows)
            == MovedWorth(env.fs, env.rows, rows', env.rows, child, r, v, h, |rows'|)
               - MovedWorth(env.fs, env.rows, env.rows, rows', child, r, v, h, |rows'|)
  {
    hide Denote, Serves, Strays, Kind, GrandTotal, LinkedTotal;
    RollupConserved(env, parents, child, r, v, h);
    RollupConserved(env.(rows := rows'), parents, child, r, v, h);
    LinkedShift(env, rows', parents, child, r, v, h, |rows'|);
    assert env.rows[..|rows'|] == env.rows && rows'[..|rows'|] == rows';
  }

  /** By how much the worth of the first `n` rows changed, each by the facts of its own time. */
  ghost function WorthChange(fs: CheckedFormulas, rows: seq<RawRecord>, rows': seq<RawRecord>, child: TableId, r: FieldId,
                             v: Expression, h: nat, n: nat): int
    requires n <= |rows| == |rows'|
  {
    if n == 0 then 0
    else
      WorthChange(fs, rows, rows', child, r, v, h, n - 1)
      + (Worth(fs, rows', rows'[n - 1], child, r, v, h) - Worth(fs, rows, rows[n - 1], child, r, v, h))
  }

  lemma {:induction false} LinkedChange(fs: CheckedFormulas, rows: seq<RawRecord>, rows': seq<RawRecord>, child: TableId, r: FieldId,
                                        v: Expression, h: nat, n: nat)
    requires n <= |rows| == |rows'|
    ensures LinkedTotal(fs, rows', child, r, v, h, rows'[..n]) - LinkedTotal(fs, rows, child, r, v, h, rows[..n])
            == WorthChange(fs, rows, rows', child, r, v, h, n)
  {
    hide Denote;
    if n > 0 {
      assert rows[..n][..n - 1] == rows[..n - 1] && rows'[..n][..n - 1] == rows'[..n - 1];
      LinkedChange(fs, rows, rows', child, r, v, h, n - 1);
    }
  }

  /** For every summand, straying ones included, the grand total changes by the changes of the children's own worth. */
  lemma RetargetAlways(env: Env, rows': seq<RawRecord>, parents: TableId, child: TableId, r: FieldId, v: Expression, h: nat)
    requires Serves(env) && Serves(env.(rows := rows')) && RefTarget(env.fs.shape, child, r) == Ok(parents)
    requires |env.rows| == |rows'|
    ensures GrandTotal(env.fs, rows', parents, child, r, v, h, rows') - GrandTotal(env.fs, env.rows, parents, child, r, v, h, env.rows)
            == WorthChange(env.fs, env.rows, rows', child, r, v, h, |rows'|)
  {
    hide Serves, GrandTotal, LinkedTotal, WorthChange;
    RollupConserved(env, parents, child, r, v, h);
    RollupConserved(env.(rows := rows'), parents, child, r, v, h);
    LinkedChange(env.fs, env.rows, rows', child, r, v, h, |rows'|);
    assert env.rows[..|rows'|] == env.rows && rows'[..|rows'|] == rows';
  }

  /** Row `i` moved from one parent to another; no other row did. */
  ghost predicate OnlyMoved(rows: seq<RawRecord>, rows': seq<RawRecord>, child: TableId, r: FieldId, i: nat) {
    && i < |rows| == |rows'|
    && Linked(rows[i], child, r) && Linked(rows'[i], child, r)
    && forall j :: 0 <= j < |rows| && j != i ==> rows[j] == rows'[j]
  }

  lemma {:induction false} OneMoved(fs: CheckedFormulas, store: seq<RawRecord>, these: seq<RawRecord>, those: seq<RawRecord>,
                                    child: TableId, r: FieldId, v: Expression, h: nat, i: nat, n: nat)
    requires n <= |these| == |those| && i < |these|
    requires forall j :: 0 <= j < |these| && j != i ==> these[j] == those[j]
    ensures MovedWorth(fs, store, these, those, child, r, v, h, n)
            == if i < n && these[i] != those[i] then Worth(fs, store, these[i], child, r, v, h) else 0
  {
    hide Worth;
    if n > 0 {
      OneMoved(fs, store, these, those, child, r, v, h, i, n - 1);
    }
  }

  /**
   Moving one child conserves the grand total exactly when the summand is worth the same on the child
   as it is and on the child as it will be. Both are evaluated in the store before the move.
   */
  lemma RetargetExactly(env: Env, rows': seq<RawRecord>, parents: TableId, child: TableId, r: FieldId, v: Expression, h: nat, i: nat)
    requires Moves(env, rows', parents, child, r, v, h) && OnlyMoved(env.rows, rows', child, r, i)
    ensures GrandTotal(env.fs, rows', parents, child, r, v, h, rows') == GrandTotal(env.fs, env.rows, parents, child, r, v, h, env.rows)
            <==> OrZero(Denote(env.fs, env.rows, rows'[i], v, h)) == OrZero(Denote(env.fs, env.rows, env.rows[i], v, h))
  {
    hide Denote, Serves, Strays, Kind, GrandTotal;
    RetargetShift(env, rows', parents, child, r, v, h);
    OneMoved(env.fs, env.rows, rows', env.rows, child, r, v, h, i, |rows'|);
    OneMoved(env.fs, env.rows, env.rows, rows', child, r, v, h, i, |rows'|);
  }

  /** The value of field `g` on the parent that the child refers to, with nothing for zero. */
  function ParentField(rows: seq<RawRecord>, c: RawRecord, r: FieldId, g: FieldId): int {
    match Get(c.values, r)
    case Ref(ref) =>
      (match FindRow(rows, Key(ref.table, ref.record))
       case Some(p) => OrZero(ValueInt(Get(p.values, g)))
       case None => 0)
    case _ => 0
  }

  /** For a roll-up of a field looked up through the link itself, the total is conserved exactly when both parents hold the same. */
  lemma RetargetLookup(env: Env, rows': seq<RawRecord>, parents: TableId, child: TableId, r: FieldId, g: FieldId, h: nat, i: nat)
    requires Serves(env) && Serves(env.(rows := rows')) && RefTarget(env.fs.shape, child, r) == Ok(parents)
    requires Retargeted(env.rows, rows', child, r) && OnlyMoved(env.rows, rows', child, r, i)
    requires h > 0 && Kind(env.fs, child, Lookup(r, g), h).Some?
    ensures GrandTotal(env.fs, rows', parents, child, r, Lookup(r, g), h, rows')
            == GrandTotal(env.fs, env.rows, parents, child, r, Lookup(r, g), h, env.rows)
            <==> ParentField(env.rows, rows'[i], r, g) == ParentField(env.rows, env.rows[i], r, g)
  {
    hide GrandTotal, Serves;
    LinkIsNoNumber(env.fs.shape, child, r, g, parents);
    RetargetExactly(env, rows', parents, child, r, Lookup(r, g), h, i);
  }

  /** A link is not a numeric field, so no lookup reads it. */
  lemma LinkIsNoNumber(shape: Shape, child: TableId, r: FieldId, g: FieldId, parents: TableId)
    requires RefTarget(shape, child, r) == Ok(parents) && LookupKind(shape, child, r, g).Ok?
    ensures !(parents == child && g == r)
  {
  }
}
