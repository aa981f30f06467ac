/**
 Reverse references and the conservation law of roll-ups.

 Reverse edges are never stored: they are recomputed from the references of the child rows. In a
 checked store they partition the linked children over the parents, so summing a roll-up over all
 parents counts every linked child exactly once.
 */
module Rollups {
  import opened Wrappers
  import opened Sorting
  import opened AppSpec
  import opened Records
  import opened Formulas
  import opened FormulaProofs

  // ------------------------------------------------------------ reverse references

  predicate IsChild(c: RawRecord, child: TableId, r: FieldId, parent: Key) {
    && c.table == child
    && match Get(c.values, r)
       case Ref(ref) => ref.table == parent.table && ref.record == parent.id
       case _ => false
  }

  /** Identities of the rows of `child` whose reference `r` names `parent`, in canonical order. */
  function ChildIds(rows: seq<RawRecord>, child: TableId, r: FieldId, parent: Key): (ids: seq<RecordId>)
    ensures forall id :: id in ids <==> exists i :: 0 <= i < |rows| && IsChild(rows[i], child, r, parent) && rows[i].id == id
  {
    if rows == [] then []
    else
      var front := rows[..|rows| - 1];
      var c := rows[|rows| - 1];
      var rest := ChildIds(front, child, r, parent);
      assert forall i :: 0 <= i < |front| ==> front[i] == rows[i];
      if IsChild(c, child, r, parent) then rest + [c.id] else rest
  }

  /** `reverse_refs`: all of the children, or a refusal; never a filtered list. */
  method ReverseRefs(env: Env, parent: Key, child: TableId, r: FieldId) returns (ids: Result<seq<RecordId>, FormulaError>)
    ensures ids.Ok? ==> ids.value == ChildIds(env.rows, child, r, parent)
    ensures ids.Ok? <==>
              && env.policy.snapshot && env.policy.record(parent) && FindRow(env.rows, parent).Some?
              && RefTarget(env.fs.shape, child, r) == Ok(parent.table)
              && AllowsScan(env.policy, child, {r})
              && forall i :: 0 <= i < |env.rows| && env.rows[i].table == child ==> AllowsField(env.policy, env.rows[i], r)
  {
    if !env.policy.snapshot || !env.policy.record(parent) {
      return Err(OutputDenied);
    }
    if FindRow(env.rows, parent).None? {
      return Err(MissingRecord);
    }
    match RefTarget(env.fs.shape, child, r) {
      case Err(x) => return Err(x);
      case Ok(target) =>
        if target != parent.table {
          return Err(ReferenceTargetMismatch);
        }
    }
    if !AllowsScan(env.policy, child, {r}) {
      return Err(OutputDenied);
    }
    var result: seq<RecordId> := [];
    for i := 0 to |env.rows|
      invariant result == ChildIds(env.rows[..i], child, r, parent)
      invariant forall j :: 0 <= j < i && env.rows[j].table == child ==> AllowsField(env.policy, env.rows[j], r)
    {
      assert env.rows[..i + 1][..i] == env.rows[..i];
      var c := env.rows[i];
      if c.table == child {
        if !AllowsField(env.policy, c, r) {
          return Err(OutputDenied);
        }
        if IsChild(c, child, r, parent) {
          result := result + [c.id];
        }
      }
    }
    assert env.rows[..|env.rows|] == env.rows;
    ids := Ok(result);
  }

  /** The child row holds a reference in `r`. */
  predicate Linked(c: RawRecord, child: TableId, r: FieldId) {
    c.table == child && Get(c.values, r).Ref?
  }

  /** Reverse references partition the linked children: each has one parent, and unlinked rows have none. */
  lemma ReversePartition(env: Env, child: TableId, r: FieldId, parents: TableId, c: RawRecord)
    requires Serves(env) && RefTarget(env.fs.shape, child, r) == Ok(parents) && c in env.rows
    ensures Linked(c, child, r) <==>
              exists i :: 0 <= i < |env.rows| && env.rows[i].table == parents && IsChild(c, child, r, RecordKey(env.rows[i]))
    ensures forall i, j :: (0 <= i < |env.rows| && 0 <= j < |env.rows|
                            && IsChild(c, child, r, RecordKey(env.rows[i])) && IsChild(c, child, r, RecordKey(env.rows[j])))
                           ==> i == j
  {
    if Linked(c, child, r) {
      assert FieldServes(env, c, r);
      var ref := Get(c.values, r).ref;
      var p := FindRow(env.rows, Key(parents, ref.record)).value;
      var i :| 0 <= i < |env.rows| && env.rows[i] == p;
      assert IsChild(c, child, r, RecordKey(env.rows[i]));
    }
  }

  // ------------------------------------------------------------ conservation

  /** The roll-up `Sum(child, r, v)` added up over the rows of `parents` among `ps`, counting the children `cs`. */
  ghost function ParentTotal(fs: CheckedFormulas, rows: seq<RawRecord>, parents: TableId, child: TableId, r: FieldId,
                             v: Expression, h: nat, ps: seq<RawRecord>, cs: seq<RawRecord>): int
  {
    if ps == [] then 0
    else
      var p := ps[|ps| - 1];
      ParentTotal(fs, rows, parents, child, r, v, h, ps[..|ps| - 1], cs)
      + (if p.table == parents then DenoteChildren(fs, rows, p, child, r, v, cs, h) else 0)
  }

  ghost function ContributionTotal(fs: CheckedFormulas, rows: seq<RawRecord>, parents: TableId, child: TableId, r: FieldId,
                                   v: Expression, h: nat, ps: seq<RawRecord>, c: RawRecord): int
  {
    if ps == [] then 0
    else
      var p := ps[|ps| - 1];
      ContributionTotal(fs, rows, parents, child, r, v, h, ps[..|ps| - 1], c)
      + (if p.table == parents then Contribution(fs, rows, p, child, r, v, c, h) else 0)
  }

  /** The summand added up over the linked children among `cs`, with no parent in sight. */
  ghost function LinkedTotal(fs: CheckedFormulas, rows: seq<RawRecord>, child: TableId, r: FieldId, v: Expression, h: nat,
                             cs: seq<RawRecord>): int
  {
    if cs == [] then 0
    else
      var c := cs[|cs| - 1];
      LinkedTotal(fs, rows, child, r, v, h, cs[..|cs| - 1])
      + (if Linked(c, child, r) then OrZero(Denote(fs, rows, c, v, h)) else 0)
  }

  lemma {:induction false} ParentTotalStep(fs: CheckedFormulas, rows: seq<RawRecord>, parents: TableId, child: TableId,
                                           r: FieldId, v: Expression, h: nat, ps: seq<RawRecord>, cs: seq<RawRecord>)
    requires cs != []
    ensures ParentTotal(fs, rows, parents, child, r, v, h, ps, cs)
            == ParentTotal(fs, rows, parents, child, r, v, h, ps, cs[..|cs| - 1])
               + ContributionTotal(fs, rows, parents, child, r, v, h, ps, cs[|cs| - 1])
  {
    hide Contribution;
    if ps != [] {
      ParentTotalStep(fs, rows, parents, child, r, v, h, ps[..|ps| - 1], cs);
    }
  }

  lemma {:induction false} ParentTotalEmpty(fs: CheckedFormulas, rows: seq<RawRecord>, parents: TableId, child: TableId,
                                            r: FieldId, v: Expression, h: nat, ps: seq<RawRecord>)
    ensures ParentTotal(fs, rows, parents, child, r, v, h, ps, []) == 0
  {
    if ps != [] {
      ParentTotalEmpty(fs, rows, parents, child, r, v, h, ps[..|ps| - 1]);
    }
  }

  /** Over distinct parents a child contributes once, and only if one of them is its parent. */
  lemma {:induction false} ContributesOnce(fs: CheckedFormulas, rows: seq<RawRecord>, parents: TableId, child: TableId,
                                           r: FieldId, v: Expression, h: nat, n: nat, c: RawRecord)
    requires DistinctKeys(RecordKey, rows) && n <= |rows|
    ensures ContributionTotal(fs, rows, parents, child, r, v, h, rows[..n], c) ==
              if (exists i :: 0 <= i < n && rows[i].table == parents && IsChild(c, child, r, RecordKey(rows[i])))
              then OrZero(Denote(fs, rows, c, v, h)) else 0
  {
    hide Denote;
    if n > 0 {
      assert rows[..n][..n - 1] == rows[..n - 1];
      ContributesOnce(fs, rows, parents, child, r, v, h, n - 1, c);
      var p := rows[n - 1];
      assert (c.table == child && PointsAt(c, r, p)) == IsChild(c, child, r, RecordKey(p));
      if p.table == parents && IsChild(c, child, r, RecordKey(p)) {
        assert forall i :: 0 <= i < n - 1 ==> RecordKey(rows[i]) != RecordKey(p);
      }
    }
  }

  /** Roll-up conservation: summed over all parents, a roll-up counts every linked child exactly once. */
  lemma {:induction false} Conservation(env: Env, parents: TableId, child: TableId, r: FieldId, v: Expression, h: nat, n: nat)
    requires Serves(env) && RefTarget(env.fs.shape, child, r) == Ok(parents) && n <= |env.rows|
    ensures ParentTotal(env.fs, env.rows, parents, child, r, v, h, env.rows, env.rows[..n])
            == LinkedTotal(env.fs, env.rows, child, r, v, h, env.rows[..n])
  {
    hide Denote, Contribution;
    if n == 0 {
      ParentTotalEmpty(env.fs, env.rows, parents, child, r, v, h, env.rows);
    } else {
      assert env.rows[..n][..n - 1] == env.rows[..n - 1];
      var c := env.rows[n - 1];
      Conservation(env, parents, child, r, v, h, n - 1);
      ParentTotalStep(env.fs, env.rows, parents, child, r, v, h, env.rows, env.rows[..n]);
      assert env.rows[..|env.rows|] == env.rows;
      ContributesOnce(env.fs, env.rows, parents, child, r, v, h, |env.rows|, c);
      ReversePartition(env, child, r, parents, c);
    }
  }

  /** The grand total of the roll-up `Sum(child, r, v)` over every row of `parents`. */
  ghost function GrandTotal(fs: CheckedFormulas, rows: seq<RawRecord>, parents: TableId, child: TableId, r: FieldId,
                            v: Expression, h: nat, ps: seq<RawRecord>): int
  {
    if ps == [] then 0
    else
      var p := ps[|ps| - 1];
      GrandTotal(fs, rows, parents, child, r, v, h, ps[..|ps| - 1])
      + (if p.table == parents then OrZero(Denote(fs, rows, p, Sum(child, r, v), h + 1)) else 0)
  }

  lemma {:induction false} GrandTotalIsParentTotal(fs: CheckedFormulas, rows: seq<RawRecord>, parents: TableId,
                                                   child: TableId, r: FieldId, v: Expression, h: nat, ps: seq<RawRecord>)
    ensures GrandTotal(fs, rows, parents, child, r, v, h, ps) == ParentTotal(fs, rows, parents, child, r, v, h, ps, rows)
  {
    hide DenoteChildren;
    if ps != [] {
      GrandTotalIsParentTotal(fs, rows, parents, child, r, v, h, ps[..|ps| - 1]);
    }
  }

  /** The grand total depends on the linked children alone. */
  lemma RollupConserved(env: Env, parents: TableId, child: TableId, r: FieldId, v: Expression, h: nat)
    requires Serves(env) && RefTarget(env.fs.shape, child, r) == Ok(parents)
    ensures GrandTotal(env.fs, env.rows, parents, child, r, v, h, env.rows)
            == LinkedTotal(env.fs, env.rows, child, r, v, h, env.rows)
  {
    assert env.rows[..|env.rows|] == env.rows;
    Conservation(env, parents, child, r, v, h, |env.rows|);
    GrandTotalIsParentTotal(env.fs, env.rows, parents, child, r, v, h, env.rows);
  }

  // ------------------------------------------------------------ retargeting

  /** The unfolding of `e` on rows of `table` reads field `f` of table `t`, directly, through a reference or in a roll-up. */
  predicate Reads(fs: CheckedFormulas, table: TableId, e: Expression, h: nat, t: TableId, f: FieldId)
    decreases h
  {
    if h == 0 then false
    else match e
      case FieldValue(g) => table == t && g == f
      case Lookup(r, g) => (table == t && r == f) || (RefTarget(fs.shape, table, r) == Ok(t) && g == f)
      case Sum(child, r, v) => (child == t && r == f) || Reads(fs, child, v, h - 1, t, f)
      case Product(a, b) => Reads(fs, table, a, h - 1, t, f) || Reads(fs, table, b, h - 1, t, f)
      case Total(vs) => exists i :: 0 <= i < |vs| && Reads(fs, table, vs[i], h - 1, t, f)
      case Named(name) =>
        var k := FormulaKey(table, name);
        k in fs.definitions && Reads(fs, table, fs.definitions[k], h - 1, t, f)
  }

  /** The same row but for the value of field `f`, if it is a row of table `t`. */
  ghost predicate SameBut(a: RawRecord, b: RawRecord, t: TableId, f: FieldId) {
    && RecordKey(a) == RecordKey(b)
    && forall g :: (g in a.values || g in b.values) && (a.table != t || g != f) ==> Get(a.values, g) == Get(b.values, g)
  }

  /** The same store but for the values of one field of one table. */
  ghost predicate Retargeted(rows: seq<RawRecord>, rows': seq<RawRecord>, t: TableId, f: FieldId) {
    && |rows| == |rows'|
    && forall i :: 0 <= i < |rows| ==> SameBut(rows[i], rows'[i], t, f)
  }

  lemma {:induction false} FindRetargeted(rows: seq<RawRecord>, rows': seq<RawRecord>, t: TableId, f: FieldId, k: Key)
    requires Retargeted(rows, rows', t, f)
    ensures FindRow(rows, k).Some? <==> FindRow(rows', k).Some?
    ensures FindRow(rows, k).Some? ==> SameBut(FindRow(rows, k).value, FindRow(rows', k).value, t, f)
  {
    if rows != [] && RecordKey(rows[0]) != k {
      FindRetargeted(rows[1..], rows'[1..], t, f, k);
    }
  }

  lemma SameField(a: RawRecord, b: RawRecord, t: TableId, f: FieldId, g: FieldId)
    requires SameBut(a, b, t, f) && (a.table != t || g != f)
    ensures Get(a.values, g) == Get(b.values, g)
  {
  }

  lemma LookupFrame(env: Env, rows': seq<RawRecord>, row: RawRecord, row': RawRecord, r: FieldId, g: FieldId,
                    t: TableId, f: FieldId)
    requires Serves(env) && row in env.rows
    requires Retargeted(env.rows, rows', t, f) && SameBut(row, row', t, f)
    requires LookupKind(env.fs.shape, row.table, r, g).Ok?
    requires !(row.table == t && r == f) && !(RefTarget(env.fs.shape, row.table, r) == Ok(t) && g == f)
    ensures DenoteLookup(rows', row', r, g) == DenoteLookup(env.rows, row, r, g)
  {
    SameField(row, row', t, f, r);
    assert FieldServes(env, row, r);
    var v := Get(row.values, r);
    if v.Ref? {
      FindRetargeted(env.rows, rows', t, f, Key(v.ref.table, v.ref.record));
      SameField(FindRow(env.rows, Key(v.ref.table, v.ref.record)).value,
                FindRow(rows', Key(v.ref.table, v.ref.record)).value, t, f, g);
    }
  }

  /** An expression that never reads a field means the same whatever that field holds. */
  lemma {:induction false} DenoteFrame(env: Env, rows': seq<RawRecord>, row: RawRecord, row': RawRecord, e: Expression,
                                       h: nat, t: TableId, f: FieldId)
    requires Serves(env) && row in env.rows
    requires Retargeted(env.rows, rows', t, f) && SameBut(row, row', t, f)
    requires Kind(env.fs, row.table, e, h).Some? && !Reads(env.fs, row.table, e, h, t, f)
    ensures Denote(env.fs, rows', row', e, h) == Denote(env.fs, env.rows, row, e, h)
    decreases h, 0, 0
  {
    match e
    case FieldValue(g) => SameField(row, row', t, f, g);
    case Lookup(r, g) => LookupFrame(env, rows', row, row', r, g, t, f);
    case Sum(child, r, v) =>
      ChildrenFrame(env, rows', row, row', child, r, v, h - 1, t, f, |env.rows|);
      assert env.rows[..|env.rows|] == env.rows && rows'[..|env.rows|] == rows';
    case Product(a, b) =>
      DenoteFrame(env, rows', row, row', a, h - 1, t, f);
      DenoteFrame(env, rows', row, row', b, h - 1, t, f);
    case Total(vs) =>
      TotalFrame(env, rows', row, row', vs, h - 1, t, f, |vs|);
      assert vs[..|vs|] == vs;
    case Named(name) =>
      DenoteFrame(env, rows', row, row', env.fs.definitions[FormulaKey(row.table, name)], h - 1, t, f);
  }

  lemma {:induction false} ChildrenFrame(env: Env, rows': seq<RawRecord>, row: RawRecord, row': RawRecord, child: TableId,
                                         r: FieldId, v: Expression, h: nat, t: TableId, f: FieldId, n: nat)
    requires Serves(env) && n <= |env.rows|
    requires Retargeted(env.rows, rows', t, f) && SameBut(row, row', t, f)
    requires Kind(env.fs, child, v, h).Some? && !Reads(env.fs, child, v, h, t, f) && !(child == t && r == f)
    ensures DenoteChildren(env.fs, rows', row', child, r, v, rows'[..n], h)
            == DenoteChildren(env.fs, env.rows, row, child, r, v, env.rows[..n], h)
    decreases h, 1, n
  {
    hide Denote, Kind, Serves, Reads;
    if n > 0 {
      assert env.rows[..n][..n - 1] == env.rows[..n - 1] && rows'[..n][..n - 1] == rows'[..n - 1];
      ChildrenFrame(env, rows', row, row', child, r, v, h, t, f, n - 1);
      var c, c' := env.rows[n - 1], rows'[n - 1];
      if c.table == child {
        SameField(c, c', t, f, r);
        DenoteFrame(env, rows', c, c', v, h, t, f);
      }
    }
  }

  lemma {:induction false} TotalFrame(env: Env, rows': seq<RawRecord>, row: RawRecord, row': RawRecord,
                                      vs: seq<Expression>, h: nat, t: TableId, f: FieldId, n: nat)
    requires Serves(env) && row in env.rows && n <= |vs|
    requires Retargeted(env.rows, rows', t, f) && SameBut(row, row', t, f)
    requires forall i :: 0 <= i < |vs| ==> Kind(env.fs, row.table, vs[i], h).Some? && !Reads(env.fs, row.table, vs[i], h, t, f)
    ensures DenoteTotal(env.fs, rows', row', vs[..n], h) == DenoteTotal(env.fs, env.rows, row, vs[..n], h)
    decreases h, 1, n
  {
    hide Denote, Kind, Serves, Reads;
    if n > 0 {
      assert vs[..n][..n - 1] == vs[..n - 1];
      TotalFrame(env, rows', row, row', vs, h, t, f, n - 1);
      DenoteFrame(env, rows', row, row', vs[n - 1], h, t, f);
    }
  }

  /** Moving linked children between parents conserves the grand total of every summand that does not read the link. */
  lemma RetargetConserves(env: Env, rows': seq<RawRecord>, parents: TableId, child: TableId, r: FieldId, v: Expression, h: nat)
    requires Serves(env) && Serves(env.(rows := rows')) && RefTarget(env.fs.shape, child, r) == Ok(parents)
    requires Retargeted(env.rows, rows', child, r)
    requires forall i :: 0 <= i < |env.rows| ==> Linked(env.rows[i], child, r) == Linked(rows'[i], child, r)
    requires Kind(env.fs, child, v, h).Some? && !Reads(env.fs, child, v, h, child, r)
    ensures GrandTotal(env.fs, rows', parents, child, r, v, h, rows')
            == GrandTotal(env.fs, env.rows, parents, child, r, v, h, env.rows)
  {
    RollupConserved(env, parents, child, r, v, h);
    RollupConserved(env.(rows := rows'), parents, child, r, v, h);
    LinkedFrame(env, rows', child, r, v, h, |env.rows|);
    assert env.rows[..|env.rows|] == env.rows && rows'[..|env.rows|] == rows';
  }

  lemma {:induction false} LinkedFrame(env: Env, rows': seq<RawRecord>, child: TableId, r: FieldId, v: Expression, h: nat, n: nat)
    requires Serves(env) && n <= |env.rows|
    requires Retargeted(env.rows, rows', child, r)
    requires forall i :: 0 <= i < |env.rows| ==> Linked(env.rows[i], child, r) == Linked(rows'[i], child, r)
    requires Kind(env.fs, child, v, h).Some? && !Reads(env.fs, child, v, h, child, r)
    ensures LinkedTotal(env.fs, rows', child, r, v, h, rows'[..n])
            == LinkedTotal(env.fs, env.rows, child, r, v, h, env.rows[..n])
  {
    hide Denote, Kind, Serves, Reads;
    if n > 0 {
      assert env.rows[..n][..n - 1] == env.rows[..n - 1] && rows'[..n][..n - 1] == rows'[..n - 1];
      LinkedFrame(env, rows', child, r, v, h, n - 1);
      if env.rows[n - 1].table == child {
        DenoteFrame(env, rows', env.rows[n - 1], rows'[n - 1], v, h, child, r);
      }
    }
  }
}
