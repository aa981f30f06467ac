/**
 What compilation certifies, and what evaluation can then answer.

 `Check` succeeds only on expressions whose unfolding has a kind within the depth left to it, and it
 succeeds again from any easier starting point. Evaluation of a checked expression therefore agrees
 with the denotation over unbounded integers whenever it answers, and can only fail for lack of
 permission, of budget, or of 64-bit room.
 */
module FormulaProofs {
  import opened Wrappers
  import opened Sorting
  import opened AppSpec
  import opened Records
  import opened Formulas

  // ------------------------------------------------------------ what a successful check means

  /** The checker's kind is the kind of the unfolding, found within the levels the depth limit leaves. */
  lemma {:induction false} CheckTyped(fs: CheckedFormulas, table: TableId, e: Expression, depth: nat, nodes: nat,
                                      visiting: set<FormulaKey>)
    requires Check(fs, table, e, depth, nodes, visiting).0.Ok?
    ensures Kind(fs, table, e, Height(fs.limits, depth)) == Some(Check(fs, table, e, depth, nodes, visiting).0.value)
    decreases Height(fs.limits, depth), 0, 0
  {
    var n := nodes + 1;
    match e
    case FieldValue(_) =>
    case Lookup(_, _) =>
    case Sum(child, r, v) => CheckTyped(fs, child, v, depth + 1, n, visiting);
    case Product(a, b) =>
      CheckTyped(fs, table, a, depth + 1, n, visiting);
      CheckTyped(fs, table, b, depth + 1, Check(fs, table, a, depth + 1, n, visiting).1, visiting);
    case Total(vs) => CheckAllTyped(fs, table, vs, depth + 1, n, visiting, None);
    case Named(name) =>
      var k := FormulaKey(table, name);
      CheckTyped(fs, table, fs.definitions[k], depth + 1, n, visiting + {k});
  }

  lemma {:induction false} CheckAllTyped(fs: CheckedFormulas, table: TableId, vs: seq<Expression>, depth: nat,
                                         nodes: nat, visiting: set<FormulaKey>, kind: Option<NumericKind>)
    requires CheckAll(fs, table, vs, depth, nodes, visiting, kind).0.Ok?
    ensures var k := CheckAll(fs, table, vs, depth, nodes, visiting, kind).0.value;
            && (kind.Some? ==> kind.value == k)
            && (vs == [] ==> kind.Some?)
            && forall i :: 0 <= i < |vs| ==> Kind(fs, table, vs[i], Height(fs.limits, depth)) == Some(k)
    decreases Height(fs.limits, depth), 1, |vs|
  {
    if vs != [] {
      var head := Check(fs, table, vs[0], depth, nodes, visiting);
      CheckTyped(fs, table, vs[0], depth, nodes, visiting);
      CheckAllTyped(fs, table, vs[1..], depth, head.1, visiting, Some(head.0.value));
      var k := head.0.value;
      forall i | 0 <= i < |vs|
        ensures Kind(fs, table, vs[i], Height(fs.limits, depth)) == Some(k)
      {
        if i > 0 {
          assert vs[i] == vs[1..][i - 1];
        }
      }
    }
  }

  /** An expression that checks once checks again, with the same kind, from any easier starting point. */
  lemma {:induction false} CheckMonotone(fs: CheckedFormulas, table: TableId, e: Expression, depth: nat, nodes: nat,
                                         visiting: set<FormulaKey>, depth': nat, nodes': nat, visiting': set<FormulaKey>)
    requires Check(fs, table, e, depth, nodes, visiting).0.Ok?
    requires depth' <= depth && nodes' <= nodes && visiting' <= visiting
    ensures Check(fs, table, e, depth', nodes', visiting').0 == Check(fs, table, e, depth, nodes, visiting).0
    ensures Check(fs, table, e, depth', nodes', visiting').1 - nodes' == Check(fs, table, e, depth, nodes, visiting).1 - nodes
    decreases Height(fs.limits, depth), 0, 0
  {
    var n, n' := nodes + 1, nodes' + 1;
    match e
    case FieldValue(_) =>
    case Lookup(_, _) =>
    case Sum(child, r, v) => CheckMonotone(fs, child, v, depth + 1, n, visiting, depth' + 1, n', visiting');
    case Product(a, b) =>
      CheckMonotone(fs, table, a, depth + 1, n, visiting, depth' + 1, n', visiting');
      CheckMonotone(fs, table, b, depth + 1, Check(fs, table, a, depth + 1, n, visiting).1, visiting,
                    depth' + 1, Check(fs, table, a, depth' + 1, n', visiting').1, visiting');
    case Total(vs) => CheckAllMonotone(fs, table, vs, depth + 1, n, visiting, depth' + 1, n', visiting', None);
    case Named(name) =>
      var k := FormulaKey(table, name);
      CheckMonotone(fs, table, fs.definitions[k], depth + 1, n, visiting + {k}, depth' + 1, n', visiting' + {k});
  }

  lemma {:induction false} CheckAllMonotone(fs: CheckedFormulas, table: TableId, vs: seq<Expression>, depth: nat,
                                            nodes: nat, visiting: set<FormulaKey>, depth': nat, nodes': nat,
                                            visiting': set<FormulaKey>, kind: Option<NumericKind>)
    requires CheckAll(fs, table, vs, depth, nodes, visiting, kind).0.Ok?
    requires depth' <= depth && nodes' <= nodes && visiting' <= visiting
    ensures CheckAll(fs, table, vs, depth', nodes', visiting', kind).0 == CheckAll(fs, table, vs, depth, nodes, visiting, kind).0
    ensures CheckAll(fs, table, vs, depth', nodes', visiting', kind).1 - nodes'
            == CheckAll(fs, table, vs, depth, nodes, visiting, kind).1 - nodes
    decreases Height(fs.limits, depth), 1, |vs|
  {
    if vs != [] {
      var head, head' := Check(fs, table, vs[0], depth, nodes, visiting), Check(fs, table, vs[0], depth', nodes', visiting');
      CheckMonotone(fs, table, vs[0], depth, nodes, visiting, depth', nodes', visiting');
      CheckAllMonotone(fs, table, vs[1..], depth, head.1, visiting, depth', head'.1, visiting', Some(head.0.value));
    }
  }

  /** More room never changes a kind. */
  lemma {:induction false} KindMonotone(fs: CheckedFormulas, table: TableId, e: Expression, h: nat, h': nat)
    requires Kind(fs, table, e, h).Some? && h <= h'
    ensures Kind(fs, table, e, h') == Kind(fs, table, e, h)
    decreases h
  {
    match e
    case FieldValue(_) =>
    case Lookup(_, _) =>
    case Sum(child, r, v) => KindMonotone(fs, child, v, h - 1, h' - 1);
    case Product(a, b) =>
      KindMonotone(fs, table, a, h - 1, h' - 1);
      KindMonotone(fs, table, b, h - 1, h' - 1);
    case Total(vs) =>
      forall i | 0 <= i < |vs|
        ensures Kind(fs, table, vs[i], h' - 1) == Kind(fs, table, vs[0], h - 1)
      {
        KindMonotone(fs, table, vs[i], h - 1, h' - 1);
      }
    case Named(name) => KindMonotone(fs, table, fs.definitions[FormulaKey(table, name)], h - 1, h' - 1);
  }

  /** The height is only a measure: the fields an expression depends on are the same at every height that types it. */
  lemma {:induction false} CollectHeight(fs: CheckedFormulas, table: TableId, e: Expression, h: nat, h': nat)
    requires Kind(fs, table, e, h).Some? && Kind(fs, table, e, h').Some?
    ensures CollectFields(fs, table, e, h) == CollectFields(fs, table, e, h')
    decreases h, 0, 0
  {
    match e
    case FieldValue(_) =>
    case Lookup(_, _) =>
    case Sum(_, _, _) =>
    case Product(a, b) =>
      CollectHeight(fs, table, a, h - 1, h' - 1);
      CollectHeight(fs, table, b, h - 1, h' - 1);
    case Total(vs) => CollectAllHeight(fs, table, vs, h - 1, h' - 1);
    case Named(name) => CollectHeight(fs, table, fs.definitions[FormulaKey(table, name)], h - 1, h' - 1);
  }

  lemma {:induction false} CollectAllHeight(fs: CheckedFormulas, table: TableId, vs: seq<Expression>, h: nat, h': nat)
    requires forall i :: 0 <= i < |vs| ==> Kind(fs, table, vs[i], h).Some? && Kind(fs, table, vs[i], h').Some?
    ensures CollectAll(fs, table, vs, h) == CollectAll(fs, table, vs, h')
    decreases h, 1, |vs|
  {
    if vs != [] {
      CollectHeight(fs, table, vs[0], h, h');
      CollectAllHeight(fs, table, vs[1..], h, h');
    }
  }

  /** Nor does what an evaluation is authorized for depend on the height: it is a measure there too. */
  lemma {:induction false} AuthorizesHeight(fs: CheckedFormulas, p: OutputPolicy, table: TableId, e: Expression, h: nat, h': nat)
    requires Kind(fs, table, e, h).Some? && Kind(fs, table, e, h').Some?
    ensures Authorizes(fs, p, table, e, h) == Authorizes(fs, p, table, e, h')
    decreases h, 0, 0
  {
    match e
    case FieldValue(_) =>
    case Lookup(_, _) =>
    case Sum(child, _, v) =>
      CollectHeight(fs, child, v, h - 1, h' - 1);
      AuthorizesHeight(fs, p, child, v, h - 1, h' - 1);
    case Product(a, b) =>
      AuthorizesHeight(fs, p, table, a, h - 1, h' - 1);
      AuthorizesHeight(fs, p, table, b, h - 1, h' - 1);
    case Total(vs) => AuthorizesAllHeight(fs, p, table, vs, h - 1, h' - 1);
    case Named(name) => AuthorizesHeight(fs, p, table, fs.definitions[FormulaKey(table, name)], h - 1, h' - 1);
  }

  lemma {:induction false} AuthorizesAllHeight(fs: CheckedFormulas, p: OutputPolicy, table: TableId, vs: seq<Expression>, h: nat, h': nat)
    requires forall i :: 0 <= i < |vs| ==> Kind(fs, table, vs[i], h).Some? && Kind(fs, table, vs[i], h').Some?
    ensures AuthorizesAll(fs, p, table, vs, h) == AuthorizesAll(fs, p, table, vs, h')
    decreases h, 1, |vs|
  {
    if vs != [] {
      AuthorizesHeight(fs, p, table, vs[0], h, h');
      AuthorizesAllHeight(fs, p, table, vs[1..], h, h');
    }
  }

  // ------------------------------------------------------------ meaning over unbounded integers

  function ValueInt(v: Value): Option<int> {
    match v
    case Integer(n) => Some(n)
    case Money(n) => Some(n)
    case _ => None
  }

  function Times(a: Option<int>, b: Option<int>): Option<int> {
    match (a, b)
    case (Some(x), Some(y)) => Some(x * y)
    case _ => None
  }

  /** The value of `e` on `row`: null products are null, null summands count as zero. */
  ghost function Denote(fs: CheckedFormulas, rows: seq<RawRecord>, row: RawRecord, e: Expression, h: nat): Option<int>
    decreases h, 0, 0
  {
    if h == 0 then None
    else match e
      case FieldValue(f) => ValueInt(Get(row.values, f))
      case Lookup(r, f) => DenoteLookup(rows, row, r, f)
      case Sum(child, r, v) => Some(DenoteChildren(fs, rows, row, child, r, v, rows, h - 1))
      case Product(a, b) => Times(Denote(fs, rows, row, a, h - 1), Denote(fs, rows, row, b, h - 1))
      case Total(vs) => Some(DenoteTotal(fs, rows, row, vs, h - 1))
      case Named(name) =>
        var k := FormulaKey(row.table, name);
        if k in fs.definitions then Denote(fs, rows, row, fs.definitions[k], h - 1) else None
  }

  ghost function DenoteLookup(rows: seq<RawRecord>, row: RawRecord, r: FieldId, f: FieldId): Option<int> {
    match Get(row.values, r)
    case Ref(ref) =>
      (match FindRow(rows, Key(ref.table, ref.record))
       case None => None
       case Some(t) => ValueInt(Get(t.values, f)))
    case _ => None
  }

  /** What one candidate row adds to a roll-up of `v` over the rows of `child` that point at `row`. */
  ghost function Contribution(fs: CheckedFormulas, rows: seq<RawRecord>, row: RawRecord, child: TableId, r: FieldId,
                              v: Expression, c: RawRecord, h: nat): int
    decreases h, 1, 0
  {
    if c.table == child && PointsAt(c, r, row) then OrZero(Denote(fs, rows, c, v, h)) else 0
  }

  /** The roll-up over the candidates `cs`, a prefix of the canonical rows. */
  ghost function DenoteChildren(fs: CheckedFormulas, rows: seq<RawRecord>, row: RawRecord, child: TableId, r: FieldId,
                                v: Expression, cs: seq<RawRecord>, h: nat): int
    decreases h, 2, |cs|
  {
    if cs == [] then 0
    else DenoteChildren(fs, rows, row, child, r, v, cs[..|cs| - 1], h)
         + Contribution(fs, rows, row, child, r, v, cs[|cs| - 1], h)
  }

  ghost function DenoteTotal(fs: CheckedFormulas, rows: seq<RawRecord>, row: RawRecord, vs: seq<Expression>, h: nat): int
    decreases h, 1, |vs|
  {
    if vs == [] then 0
    else DenoteTotal(fs, rows, row, vs[..|vs| - 1], h) + OrZero(Denote(fs, rows, row, vs[|vs| - 1], h))
  }

  /** Every product and every prefix of every sum, in canonical order, stays within 64 bits. */
  ghost predicate InRange(fs: CheckedFormulas, rows: seq<RawRecord>, row: RawRecord, e: Expression, h: nat)
    decreases h
  {
    if h == 0 then true
    else match e
      case FieldValue(_) => true
      case Lookup(_, _) => true
      case Sum(child, r, v) =>
        && (forall i :: 0 <= i < |rows| && rows[i].table == child && PointsAt(rows[i], r, row)
              ==> InRange(fs, rows, rows[i], v, h - 1))
        && (forall n :: 0 <= n <= |rows| ==> InI64(DenoteChildren(fs, rows, row, child, r, v, rows[..n], h - 1)))
      case Product(a, b) =>
        && InRange(fs, rows, row, a, h - 1)
        && InRange(fs, rows, row, b, h - 1)
        && var x := Denote(fs, rows, row, Product(a, b), h); (x.Some? ==> InI64(x.value))
      case Total(vs) =>
        && (forall i :: 0 <= i < |vs| ==> InRange(fs, rows, row, vs[i], h - 1))
        && (forall n :: 0 <= n <= |vs| ==> InI64(DenoteTotal(fs, rows, row, vs[..n], h - 1)))
      case Named(name) =>
        var k := FormulaKey(row.table, name);
        k in fs.definitions ==> InRange(fs, rows, row, fs.definitions[k], h - 1)
  }

  // ------------------------------------------------------------ facts a checked store offers

  /** A field of the shape carries a number or reference of its declared kind, or nothing; references resolve. */
  ghost predicate FieldServes(env: Env, row: RawRecord, f: FieldId) {
    var k := Key(row.table, f);
    && f in row.values
    && (k in env.fs.shape.fields && !Missing(row.values[f]) ==>
          match env.fs.shape.fields[k].0
          case IntegerType => row.values[f].Integer?
          case MoneyType => row.values[f].Money?
          case RefType(target) =>
            && row.values[f].Ref?
            && row.values[f].ref.table == target
            && FindRow(env.rows, Key(target, row.values[f].ref.record)).Some?
          case _ => true)
  }

  /** The facts have the shape the formulas were checked against. */
  ghost predicate Serves(env: Env) {
    && DistinctKeys(RecordKey, env.rows)
    && forall r, f :: r in env.rows && Key(r.table, f) in env.fs.shape.fields ==> FieldServes(env, r, f)
  }

  /** Every checked store whose definition has the formulas' shape serves them. */
  lemma CheckedServes(env: Env, spec: Spec, scope: Scope)
    requires env.fs.shape == ShapeOf(spec) && CheckedRecords(spec, scope, env.rows)
    ensures Serves(env)
  {
    hide CheckedRecords, FieldServes, ShapeOf;
    CheckedKeys(spec, scope, env.rows);
    forall r, f | r in env.rows && Key(r.table, f) in env.fs.shape.fields
      ensures FieldServes(env, r, f)
    {
      CheckedFieldServes(env, spec, scope, r, f);
    }
  }

  lemma CheckedKeys(spec: Spec, scope: Scope, rows: seq<RawRecord>)
    requires CheckedRecords(spec, scope, rows)
    ensures DistinctKeys(RecordKey, rows)
  {
  }

  lemma CheckedFieldServes(env: Env, spec: Spec, scope: Scope, r: RawRecord, f: FieldId)
    requires env.fs.shape == ShapeOf(spec) && CheckedRecords(spec, scope, env.rows)
    requires r in env.rows && Key(r.table, f) in env.fs.shape.fields
    ensures FieldServes(env, r, f)
  {
    CheckedField(spec, scope, env.rows, r, f);
  }

  lemma FieldNumber(env: Env, row: RawRecord, f: FieldId)
    requires Serves(env) && row in env.rows && FieldKind(env.fs.shape, row.table, f).Ok?
    ensures f in row.values
    ensures var k := FieldKind(env.fs.shape, row.table, f).value;
            var n := ValueNumber(Get(row.values, f), k);
            n.Ok? && KindOf(n.value) == k && NumberOf(n.value) == ValueInt(Get(row.values, f))
  {
    assert FieldServes(env, row, f);
  }

  lemma LookupSound(env: Env, row: RawRecord, r: FieldId, f: FieldId)
    requires Serves(env) && row in env.rows && LookupKind(env.fs.shape, row.table, r, f).Ok?
    ensures var v := LookupValue(env, RecordKey(row), r, f);
            && (v.Err? ==> v.error == OutputDenied)
            && (AllowsEverything(env.policy) ==> v.Ok?)
            && (v.Ok? ==> var k := LookupKind(env.fs.shape, row.table, r, f).value;
                          var n := ValueNumber(v.value, k);
                          n.Ok? && KindOf(n.value) == k && NumberOf(n.value) == DenoteLookup(env.rows, row, r, f))
  {
    FindRowUnique(env.rows, row);
    assert FieldServes(env, row, r);
    var v := Get(row.values, r);
    if v.Ref? {
      FieldNumber(env, FindRow(env.rows, Key(v.ref.table, v.ref.record)).value, f);
    }
  }

  // ------------------------------------------------------------ soundness

  /** An answer has kind `k` and is exact; a failure is one of the four that checked formulas leave open. */
  ghost predicate Sound(r: Result<Numeric, FormulaError>, k: NumericKind, meaning: Option<int>, inRange: bool) {
    match r
    case Ok(n) => KindOf(n) == k && NumberOf(n) == meaning && inRange
    case Err(x) => x == OutputDenied || x == NodeBudgetExceeded || x == RecordBudgetExceeded || (x == Overflow && !inRange)
  }

  ghost predicate EvalSoundAt(env: Env, row: RawRecord, e: Expression, depth: nat, m: Meter, k: NumericKind)
    requires Kind(env.fs, row.table, e, Height(env.fs.limits, depth)).Some?
  {
    var h := Height(env.fs.limits, depth);
    Sound(Eval(env, row, e, depth, m).0, k, Denote(env.fs, env.rows, row, e, h), InRange(env.fs, env.rows, row, e, h))
  }

  lemma {:induction false} EvalSound(env: Env, row: RawRecord, e: Expression, depth: nat,
                                     m: Meter, nodes: nat, visiting: set<FormulaKey>, k: NumericKind)
    requires Serves(env) && row in env.rows
    requires Check(env.fs, row.table, e, depth, nodes, visiting).0 == Ok(k)
    requires Kind(env.fs, row.table, e, Height(env.fs.limits, depth)) == Some(k)
    ensures EvalSoundAt(env, row, e, depth, m, k)
    decreases Height(env.fs.limits, depth), 0, 0
  {
    hide Eval, Check, Kind, Denote, InRange;
    CheckEnters(env.fs, row.table, e, depth, nodes, visiting);
    if m.nodes + 1 > env.fs.limits.maxNodes {
      EvalExhausted(env, row, e, depth, m);
    } else {
      match e
      case FieldValue(f) => FieldSound(env, row, f, depth, m, k);
      case Lookup(r, f) => LookupCaseSound(env, row, r, f, depth, m, k);
      case Sum(child, r, v) => SumSound(env, row, child, r, v, depth, m, nodes, visiting, k);
      case Product(a, b) => ProductSound(env, row, a, b, depth, m, nodes, visiting, k);
      case Total(vs) => TotalCaseSound(env, row, vs, depth, m, nodes, visiting, k);
      case Named(name) => NamedSound(env, row, name, depth, m, nodes, visiting, k);
    }
  }

  lemma CheckEnters(fs: CheckedFormulas, table: TableId, e: Expression, depth: nat, nodes: nat, visiting: set<FormulaKey>)
    requires Check(fs, table, e, depth, nodes, visiting).0.Ok?
    ensures depth <= fs.limits.maxDepth && nodes + 1 <= fs.limits.maxNodes
    ensures Height(fs.limits, depth) == Height(fs.limits, depth + 1) + 1
  {
    hide CheckAll;
  }

  lemma EvalExhausted(env: Env, row: RawRecord, e: Expression, depth: nat, m: Meter)
    requires Kind(env.fs, row.table, e, Height(env.fs.limits, depth)).Some?
    requires m.nodes + 1 > env.fs.limits.maxNodes
    ensures Eval(env, row, e, depth, m).0 == Err(NodeBudgetExceeded)
  {
    assert depth <= env.fs.limits.maxDepth;
  }

  lemma FieldSound(env: Env, row: RawRecord, f: FieldId, depth: nat, m: Meter, k: NumericKind)
    requires Serves(env) && row in env.rows && m.nodes + 1 <= env.fs.limits.maxNodes
    requires Kind(env.fs, row.table, FieldValue(f), Height(env.fs.limits, depth)) == Some(k)
    ensures EvalSoundAt(env, row, FieldValue(f), depth, m, k)
  {
    FieldNumber(env, row, f);
  }

  lemma LookupCaseSound(env: Env, row: RawRecord, r: FieldId, f: FieldId, depth: nat, m: Meter, k: NumericKind)
    requires Serves(env) && row in env.rows && m.nodes + 1 <= env.fs.limits.maxNodes
    requires Kind(env.fs, row.table, Lookup(r, f), Height(env.fs.limits, depth)) == Some(k)
    ensures EvalSoundAt(env, row, Lookup(r, f), depth, m, k)
  {
    hide LookupValue, DenoteLookup, Serves;
    LookupSound(env, row, r, f);
  }

  lemma NamedUnfolds(env: Env, row: RawRecord, name: string, depth: nat, m: Meter, nodes: nat, visiting: set<FormulaKey>)
    requires Check(env.fs, row.table, Named(name), depth, nodes, visiting).0.Ok?
    requires Kind(env.fs, row.table, Named(name), Height(env.fs.limits, depth)).Some?
    requires m.nodes + 1 <= env.fs.limits.maxNodes
    ensures var key := FormulaKey(row.table, name);
            && key in env.fs.definitions
            && var e := env.fs.definitions[key];
            var h := Height(env.fs.limits, depth + 1);
            && Check(env.fs, row.table, Named(name), depth, nodes, visiting)
               == Check(env.fs, row.table, e, depth + 1, nodes + 1, visiting + {key})
            && Kind(env.fs, row.table, e, h) == Kind(env.fs, row.table, Named(name), h + 1)
            && Kind(env.fs, row.table, e, h).Some?
            && Eval(env, row, Named(name), depth, m) == Eval(env, row, e, depth + 1, m.(nodes := m.nodes + 1))
  {
    hide Denote, InRange, CheckAll;
  }

  lemma NamedMeans(fs: CheckedFormulas, rows: seq<RawRecord>, row: RawRecord, name: string, h: nat)
    requires FormulaKey(row.table, name) in fs.definitions
    ensures var e := fs.definitions[FormulaKey(row.table, name)];
            && Denote(fs, rows, row, Named(name), h + 1) == Denote(fs, rows, row, e, h)
            && InRange(fs, rows, row, Named(name), h + 1) == InRange(fs, rows, row, e, h)
  {
  }

  lemma {:induction false} NamedSound(env: Env, row: RawRecord, name: string, depth: nat, m: Meter,
                                      nodes: nat, visiting: set<FormulaKey>, k: NumericKind)
    requires Serves(env) && row in env.rows && m.nodes + 1 <= env.fs.limits.maxNodes
    requires Check(env.fs, row.table, Named(name), depth, nodes, visiting).0 == Ok(k)
    requires Kind(env.fs, row.table, Named(name), Height(env.fs.limits, depth)) == Some(k)
    ensures EvalSoundAt(env, row, Named(name), depth, m, k)
    decreases Height(env.fs.limits, depth + 1), 3, 0
  {
    hide Eval, Check, Kind, Denote, InRange;
    var key := FormulaKey(row.table, name);
    CheckEnters(env.fs, row.table, Named(name), depth, nodes, visiting);
    NamedUnfolds(env, row, name, depth, m, nodes, visiting);
    NamedMeans(env.fs, env.rows, row, name, Height(env.fs.limits, depth + 1));
    EvalSound(env, row, env.fs.definitions[key], depth + 1, m.(nodes := m.nodes + 1), nodes + 1, visiting + {key}, k);
  }

  lemma ProductTyped(fs: CheckedFormulas, table: TableId, a: Expression, b: Expression, h: nat)
    requires Kind(fs, table, Product(a, b), h + 1).Some?
    ensures Kind(fs, table, a, h).Some? && Kind(fs, table, b, h).Some?
  {
  }

  lemma ProductChecks(fs: CheckedFormulas, table: TableId, a: Expression, b: Expression, depth: nat, nodes: nat, visiting: set<FormulaKey>)
    requires Check(fs, table, Product(a, b), depth, nodes, visiting).0.Ok?
    ensures var left := Check(fs, table, a, depth + 1, nodes + 1, visiting);
            && left.0.Ok?
            && var right := Check(fs, table, b, depth + 1, left.1, visiting);
            && right.0.Ok?
            && Check(fs, table, Product(a, b), depth, nodes, visiting).0 == ProductKind(left.0.value, right.0.value)
  {
    hide CheckAll;
  }

  lemma ProductUnfolds(env: Env, row: RawRecord, a: Expression, b: Expression, depth: nat, m: Meter)
    requires Kind(env.fs, row.table, Product(a, b), Height(env.fs.limits, depth)).Some?
    requires Kind(env.fs, row.table, a, Height(env.fs.limits, depth + 1)).Some?
    requires Kind(env.fs, row.table, b, Height(env.fs.limits, depth + 1)).Some?
    requires depth <= env.fs.limits.maxDepth && m.nodes + 1 <= env.fs.limits.maxNodes
    ensures var left := Eval(env, row, a, depth + 1, m.(nodes := m.nodes + 1));
            Eval(env, row, Product(a, b), depth, m) ==
              if left.0.Err? then left
              else var right := Eval(env, row, b, depth + 1, left.1);
                   if right.0.Err? then right else (MultiplyNumbers(left.0.value, right.0.value), right.1)
  {
    hide Denote, InRange, Check, EvalSum, EvalTotal, EvalLookup, CollectFields;
  }

  lemma {:induction false} ProductSound(env: Env, row: RawRecord, a: Expression, b: Expression,
                                        depth: nat, m: Meter, nodes: nat, visiting: set<FormulaKey>, k: NumericKind)
    requires Serves(env) && row in env.rows
    requires Check(env.fs, row.table, Product(a, b), depth, nodes, visiting).0 == Ok(k)
    requires Kind(env.fs, row.table, Product(a, b), Height(env.fs.limits, depth)) == Some(k)
    requires m.nodes + 1 <= env.fs.limits.maxNodes
    ensures EvalSoundAt(env, row, Product(a, b), depth, m, k)
    decreases Height(env.fs.limits, depth + 1), 3, 0
  {
    hide Eval, Check, Kind;
    var fs := env.fs;
    var m1 := m.(nodes := m.nodes + 1);
    CheckEnters(env.fs, row.table, Product(a, b), depth, nodes, visiting);
    ProductTyped(env.fs, row.table, a, b, Height(env.fs.limits, depth + 1));
    ProductChecks(env.fs, row.table, a, b, depth, nodes, visiting);
    ProductUnfolds(env, row, a, b, depth, m);
    var left := Check(fs, row.table, a, depth + 1, nodes + 1, visiting);
    var right := Check(fs, row.table, b, depth + 1, left.1, visiting);
    CheckTyped(fs, row.table, a, depth + 1, nodes + 1, visiting);
    CheckTyped(fs, row.table, b, depth + 1, left.1, visiting);
    EvalSound(env, row, a, depth + 1, m1, nodes + 1, visiting, left.0.value);
    EvalSound(env, row, b, depth + 1, Eval(env, row, a, depth + 1, m1).1, left.1, visiting, right.0.value);
  }

  lemma SumUnfolds(env: Env, row: RawRecord, child: TableId, r: FieldId, v: Expression, depth: nat, m: Meter,
                   nodes: nat, visiting: set<FormulaKey>)
    requires Check(env.fs, row.table, Sum(child, r, v), depth, nodes, visiting).0.Ok?
    requires Kind(env.fs, row.table, Sum(child, r, v), Height(env.fs.limits, depth)).Some?
    requires m.nodes + 1 <= env.fs.limits.maxNodes
    ensures Check(env.fs, row.table, Sum(child, r, v), depth, nodes, visiting)
            == Check(env.fs, child, v, depth + 1, nodes + 1, visiting)
    ensures Kind(env.fs, child, v, Height(env.fs.limits, depth + 1)).Some?
    ensures RefTarget(env.fs.shape, child, r) == Ok(row.table)
    ensures var h := Height(env.fs.limits, depth + 1);
            Eval(env, row, Sum(child, r, v), depth, m) ==
              if AllowsScan(env.policy, child, {r} + CollectFields(env.fs, child, v, h))
              then EvalSum(env, row, child, r, v, depth + 1, m.(nodes := m.nodes + 1))
              else (Err(OutputDenied), m.(nodes := m.nodes + 1))
  {
    hide Denote, InRange, CheckAll, CollectFields, EvalSum;
  }

  lemma SumMeans(env: Env, row: RawRecord, child: TableId, r: FieldId, v: Expression, h: nat)
    ensures Denote(env.fs, env.rows, row, Sum(child, r, v), h + 1)
            == Some(DenoteChildren(env.fs, env.rows, row, child, r, v, env.rows, h))
    ensures InRange(env.fs, env.rows, row, Sum(child, r, v), h + 1) == ChildrenInRange(env, row, child, r, v, h, |env.rows|)
  {
    hide DenoteChildren;
  }

  lemma {:induction false} SumSound(env: Env, row: RawRecord, child: TableId, r: FieldId, v: Expression, depth: nat,
                                    m: Meter, nodes: nat, visiting: set<FormulaKey>, k: NumericKind)
    requires Serves(env) && row in env.rows && m.nodes + 1 <= env.fs.limits.maxNodes
    requires Check(env.fs, row.table, Sum(child, r, v), depth, nodes, visiting).0 == Ok(k)
    requires Kind(env.fs, row.table, Sum(child, r, v), Height(env.fs.limits, depth)) == Some(k)
    ensures EvalSoundAt(env, row, Sum(child, r, v), depth, m, k)
    decreases Height(env.fs.limits, depth + 1), 3, 0
  {
    hide Eval, Check, Kind, Denote, InRange, EvalChildren, DenoteChildren, CollectFields, AllowsScan, ChildrenInRange;
    var m1 := m.(nodes := m.nodes + 1);
    var h := Height(env.fs.limits, depth + 1);
    CheckEnters(env.fs, row.table, Sum(child, r, v), depth, nodes, visiting);
    SumUnfolds(env, row, child, r, v, depth, m, nodes, visiting);
    SumMeans(env, row, child, r, v, h);
    CheckTyped(env.fs, child, v, depth + 1, nodes + 1, visiting);
    CheckMonotone(env.fs, child, v, depth + 1, nodes + 1, visiting, 1, 0, {});
    NoChildren(env, row, child, r, v, h);
    assert env.rows[0..] == env.rows;
    ChildrenSound(env, row, child, r, v, depth + 1, 0, 0, m1, nodes + 1, visiting, k);
  }

  lemma NoChildren(env: Env, row: RawRecord, child: TableId, r: FieldId, v: Expression, h: nat)
    ensures DenoteChildren(env.fs, env.rows, row, child, r, v, env.rows[..0], h) == 0
    ensures ChildrenInRange(env, row, child, r, v, h, 0)
  {
  }

  /** One more candidate adds its contribution to the roll-up. */
  lemma MoreChildren(env: Env, row: RawRecord, child: TableId, r: FieldId, v: Expression, h: nat, i: nat)
    requires i < |env.rows|
    ensures DenoteChildren(env.fs, env.rows, row, child, r, v, env.rows[..i + 1], h)
            == DenoteChildren(env.fs, env.rows, row, child, r, v, env.rows[..i], h)
               + Contribution(env.fs, env.rows, row, child, r, v, env.rows[i], h)
  {
    hide Contribution;
    assert env.rows[..i + 1][..i] == env.rows[..i];
  }

  lemma ChildrenUnfold(env: Env, row: RawRecord, child: TableId, r: FieldId, v: Expression, depth: nat, i: nat,
                       sum: i64, m: Meter)
    requires Kind(env.fs, child, v, Height(env.fs.limits, depth)).Some? && i < |env.rows|
    ensures var c := env.rows[i];
            var rest := env.rows[i + 1..];
            var m1 := m.(records := m.records + 1);
            EvalChildren(env, row, child, r, v, depth, env.rows[i..], sum, m) ==
              if c.table != child then EvalChildren(env, row, child, r, v, depth, rest, sum, m)
              else if !AllowsField(env.policy, c, r) then (Err(OutputDenied), m)
              else if m.records + 1 > env.fs.limits.maxRecords then (Err(RecordBudgetExceeded), m1)
              else if !PointsAt(c, r, row) then EvalChildren(env, row, child, r, v, depth, rest, sum, m1)
              else
                var one := Eval(env, c, v, depth, m1);
                if one.0.Err? then (Err(one.0.error), one.1)
                else if !InI64(sum + OrZero(NumberOf(one.0.value))) then (Err(Overflow), one.1)
                else EvalChildren(env, row, child, r, v, depth, rest, sum + OrZero(NumberOf(one.0.value)), one.1)
  {
    hide Eval, Kind, PointsAt, AllowsField;
    assert env.rows[i..][1..] == env.rows[i + 1..];
  }

  lemma NoMoreChildren(env: Env, row: RawRecord, child: TableId, r: FieldId, v: Expression, depth: nat, sum: i64, m: Meter)
    requires Kind(env.fs, child, v, Height(env.fs.limits, depth)).Some?
    ensures EvalChildren(env, row, child, r, v, depth, [], sum, m) == (Ok(sum), m)
  {
  }

  lemma {:induction false} ChildrenSound(env: Env, row: RawRecord, child: TableId, r: FieldId,
                                         v: Expression, depth: nat, i: nat, sum: i64, m: Meter,
                                         nodes: nat, visiting: set<FormulaKey>, k: NumericKind)
    requires Serves(env) && row in env.rows && i <= |env.rows|
    requires Check(env.fs, child, v, depth, nodes, visiting).0 == Ok(k)
    requires Kind(env.fs, child, v, Height(env.fs.limits, depth)) == Some(k)
    requires var h := Height(env.fs.limits, depth);
             && sum == DenoteChildren(env.fs, env.rows, row, child, r, v, env.rows[..i], h)
             && ChildrenInRange(env, row, child, r, v, h, i)
    ensures var h := Height(env.fs.limits, depth);
            match EvalChildren(env, row, child, r, v, depth, env.rows[i..], sum, m).0
            case Ok(n) => n == DenoteChildren(env.fs, env.rows, row, child, r, v, env.rows, h)
                          && ChildrenInRange(env, row, child, r, v, h, |env.rows|)
            case Err(x) => x == OutputDenied || x == NodeBudgetExceeded || x == RecordBudgetExceeded
                           || (x == Overflow && !ChildrenInRange(env, row, child, r, v, h, |env.rows|))
    decreases Height(env.fs.limits, depth), 1, |env.rows| - i
  {
    hide Eval, Kind, Check, DenoteChildren, Denote, InRange, Serves, PointsAt, AllowsField, EvalChildren;
    var h := Height(env.fs.limits, depth);
    if i == |env.rows| {
      assert env.rows[..i] == env.rows && env.rows[i..] == [];
      NoMoreChildren(env, row, child, r, v, depth, sum, m);
    } else {
      var c := env.rows[i];
      MoreChildren(env, row, child, r, v, h, i);
      ChildrenUnfold(env, row, child, r, v, depth, i, sum, m);
      var contribution := Contribution(env.fs, env.rows, row, child, r, v, c, h);
      if c.table != child {
        ChildrenSound(env, row, child, r, v, depth, i + 1, sum, m, nodes, visiting, k);
      } else if m.records + 1 <= env.fs.limits.maxRecords {
        var m1 := m.(records := m.records + 1);
        if !PointsAt(c, r, row) {
          ChildrenSound(env, row, child, r, v, depth, i + 1, sum, m1, nodes, visiting, k);
        } else {
          EvalSound(env, c, v, depth, m1, nodes, visiting, k);
          var one := Eval(env, c, v, depth, m1);
          if one.0.Ok? && InI64(sum + contribution) {
            ChildrenSound(env, row, child, r, v, depth, i + 1, sum + contribution, one.1, nodes, visiting, k);
          }
        }
      }
    }
  }

  /** The first `i` candidates of a roll-up evaluate in range, and so does every partial sum over them. */
  ghost predicate ChildrenInRange(env: Env, row: RawRecord, child: TableId, r: FieldId, v: Expression, h: nat, i: nat)
    requires i <= |env.rows|
  {
    && (forall j :: 0 <= j < i && env.rows[j].table == child && PointsAt(env.rows[j], r, row)
          ==> InRange(env.fs, env.rows, env.rows[j], v, h))
    && (forall n :: 0 <= n <= i ==> InI64(DenoteChildren(env.fs, env.rows, row, child, r, v, env.rows[..n], h)))
  }

  ghost predicate TotalInRange(env: Env, row: RawRecord, vs: seq<Expression>, h: nat, i: nat)
    requires i <= |vs|
  {
    && (forall j :: 0 <= j < i ==> InRange(env.fs, env.rows, row, vs[j], h))
    && (forall n :: 0 <= n <= i ==> InI64(DenoteTotal(env.fs, env.rows, row, vs[..n], h)))
  }

  lemma TotalUnfolds(env: Env, row: RawRecord, vs: seq<Expression>, depth: nat, m: Meter,
                     nodes: nat, visiting: set<FormulaKey>)
    requires Check(env.fs, row.table, Total(vs), depth, nodes, visiting).0.Ok?
    requires Kind(env.fs, row.table, Total(vs), Height(env.fs.limits, depth)).Some?
    requires m.nodes + 1 <= env.fs.limits.maxNodes
    ensures Check(env.fs, row.table, Total(vs), depth, nodes, visiting)
            == CheckAll(env.fs, row.table, vs, depth + 1, nodes + 1, visiting, None)
    ensures forall i :: 0 <= i < |vs| ==> Kind(env.fs, row.table, vs[i], Height(env.fs.limits, depth + 1)).Some?
    ensures Eval(env, row, Total(vs), depth, m) == EvalTotal(env, row, vs, depth + 1, None, 0, m.(nodes := m.nodes + 1))
  {
    hide Denote, InRange, CheckAll, EvalTotal;
  }

  lemma TotalMeans(env: Env, row: RawRecord, vs: seq<Expression>, h: nat)
    ensures Denote(env.fs, env.rows, row, Total(vs), h + 1) == Some(DenoteTotal(env.fs, env.rows, row, vs, h))
    ensures InRange(env.fs, env.rows, row, Total(vs), h + 1) == TotalInRange(env, row, vs, h, |vs|)
  {
    hide DenoteTotal;
  }

  lemma {:induction false} TotalCaseSound(env: Env, row: RawRecord, vs: seq<Expression>, depth: nat, m: Meter,
                                          nodes: nat, visiting: set<FormulaKey>, k: NumericKind)
    requires Serves(env) && row in env.rows && m.nodes + 1 <= env.fs.limits.maxNodes
    requires Check(env.fs, row.table, Total(vs), depth, nodes, visiting).0 == Ok(k)
    requires Kind(env.fs, row.table, Total(vs), Height(env.fs.limits, depth)) == Some(k)
    ensures EvalSoundAt(env, row, Total(vs), depth, m, k)
    decreases Height(env.fs.limits, depth + 1), 3, 0
  {
    hide Eval, Check, CheckAll, Kind, Denote, InRange, EvalTotal;
    CheckEnters(env.fs, row.table, Total(vs), depth, nodes, visiting);
    TotalUnfolds(env, row, vs, depth, m, nodes, visiting);
    TotalMeans(env, row, vs, Height(env.fs.limits, depth + 1));
    CheckAllTyped(env.fs, row.table, vs, depth + 1, nodes + 1, visiting, None);
    assert vs[0..] == vs && vs[..0] == [];
    TotalSound(env, row, vs, depth + 1, 0, None, 0, m.(nodes := m.nodes + 1), nodes + 1, visiting, k);
  }

  lemma MoreSummands(fs: CheckedFormulas, rows: seq<RawRecord>, row: RawRecord, vs: seq<Expression>, h: nat, i: nat)
    requires i < |vs|
    ensures DenoteTotal(fs, rows, row, vs[..i + 1], h)
            == DenoteTotal(fs, rows, row, vs[..i], h) + OrZero(Denote(fs, rows, row, vs[i], h))
  {
    hide Denote;
    assert vs[..i + 1][..i] == vs[..i];
  }

  lemma TotalUnfold(env: Env, row: RawRecord, vs: seq<Expression>, depth: nat, i: nat, kind: Option<NumericKind>,
                    sum: i64, m: Meter, nodes: nat, visiting: set<FormulaKey>)
    requires forall j :: 0 <= j < |vs| ==> Kind(env.fs, row.table, vs[j], Height(env.fs.limits, depth)).Some?
    requires i < |vs|
    requires CheckAll(env.fs, row.table, vs[i..], depth, nodes, visiting, kind).0.Ok?
    ensures var head := Check(env.fs, row.table, vs[i], depth, nodes, visiting);
            && head.0.Ok?
            && CheckAll(env.fs, row.table, vs[i..], depth, nodes, visiting, kind)
               == CheckAll(env.fs, row.table, vs[i + 1..], depth, head.1, visiting, Some(head.0.value))
    ensures var one := Eval(env, row, vs[i], depth, m);
            EvalTotal(env, row, vs[i..], depth, kind, sum, m) ==
              if one.0.Err? then one
              else if kind.Some? && kind.value != KindOf(one.0.value) then (Err(NumericTypeMismatch), one.1)
              else if !InI64(sum + OrZero(NumberOf(one.0.value))) then (Err(Overflow), one.1)
              else EvalTotal(env, row, vs[i + 1..], depth, Some(KindOf(one.0.value)),
                             sum + OrZero(NumberOf(one.0.value)), one.1)
  {
    hide Eval, Kind, Check;
    assert vs[i..][1..] == vs[i + 1..];
  }

  lemma {:induction false} TotalSound(env: Env, row: RawRecord, vs: seq<Expression>, depth: nat,
                                      i: nat, kind: Option<NumericKind>, sum: i64, m: Meter,
                                      nodes: nat, visiting: set<FormulaKey>, k: NumericKind)
    requires Serves(env) && row in env.rows && i <= |vs|
    requires CheckAll(env.fs, row.table, vs[i..], depth, nodes, visiting, kind).0 == Ok(k)
    requires kind.Some? ==> kind.value == k
    requires forall j :: 0 <= j < |vs| ==> Kind(env.fs, row.table, vs[j], Height(env.fs.limits, depth)) == Some(k)
    requires var h := Height(env.fs.limits, depth);
             sum == DenoteTotal(env.fs, env.rows, row, vs[..i], h) && TotalInRange(env, row, vs, h, i)
    ensures var h := Height(env.fs.limits, depth);
            Sound(EvalTotal(env, row, vs[i..], depth, kind, sum, m).0, k,
                  Some(DenoteTotal(env.fs, env.rows, row, vs, h)), TotalInRange(env, row, vs, h, |vs|))
    decreases Height(env.fs.limits, depth), 1, |vs| - i
  {
    hide Eval, Kind, Check, Denote, DenoteTotal, InRange, Serves;
    var h := Height(env.fs.limits, depth);
    if i == |vs| {
      assert vs[..i] == vs;
    } else {
      hide EvalTotal, CheckAll;
      TotalUnfold(env, row, vs, depth, i, kind, sum, m, nodes, visiting);
      MoreSummands(env.fs, env.rows, row, vs, h, i);
      var head := Check(env.fs, row.table, vs[i], depth, nodes, visiting);
      CheckTyped(env.fs, row.table, vs[i], depth, nodes, visiting);
      EvalSound(env, row, vs[i], depth, m, nodes, visiting, k);
      var one := Eval(env, row, vs[i], depth, m);
      if one.0.Ok? {
        var next := sum + OrZero(NumberOf(one.0.value));
        assert next == DenoteTotal(env.fs, env.rows, row, vs[..i + 1], h);
        if InI64(next) {
          TotalSound(env, row, vs, depth, i + 1, Some(k), next, one.1, head.1, visiting, k);
        }
      }
    }
  }
}
