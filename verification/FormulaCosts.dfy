/**
 How much budget an evaluation needs, and what it can still answer when it has that much.

 Up-front authorization covers every field and scan an evaluation reads, so with visible records and
 a budget no smaller than `Cost` the only failure left is arithmetic overflow.
 */
module FormulaCosts {
  import opened Wrappers
  import opened Sorting
  import opened AppSpec
  import opened Records
  import opened Formulas
  import opened FormulaProofs

  function Plus(a: Meter, b: Meter): Meter {
    Meter(a.nodes + b.nodes, a.records + b.records)
  }

  predicate Within(m: Meter, l: Limits) {
    m.nodes <= l.maxNodes && m.records <= l.maxRecords
  }

  /** Nodes entered and records read by a complete evaluation of `e` on `row`. */
  ghost function Cost(fs: CheckedFormulas, rows: seq<RawRecord>, row: RawRecord, e: Expression, h: nat): Meter
    decreases h, 0, 0
  {
    if h == 0 then Meter(0, 0)
    else match e
      case FieldValue(_) => Meter(1, 0)
      case Lookup(r, _) => Meter(1, if Get(row.values, r).Ref? then 1 else 0)
      case Sum(child, r, v) => Plus(Meter(1, 0), CostChildren(fs, rows, row, child, r, v, rows, h - 1))
      case Product(a, b) => Plus(Meter(1, 0), Plus(Cost(fs, rows, row, a, h - 1), Cost(fs, rows, row, b, h - 1)))
      case Total(vs) => Plus(Meter(1, 0), CostTotal(fs, rows, row, vs, h - 1))
      case Named(name) =>
        var k := FormulaKey(row.table, name);
        Plus(Meter(1, 0), if k in fs.definitions then Cost(fs, rows, row, fs.definitions[k], h - 1) else Meter(0, 0))
  }

  ghost function CostChildren(fs: CheckedFormulas, rows: seq<RawRecord>, row: RawRecord, child: TableId, r: FieldId,
                              v: Expression, cs: seq<RawRecord>, h: nat): Meter
    decreases h, 2, |cs|
  {
    if cs == [] then Meter(0, 0)
    else
      var rest := CostChildren(fs, rows, row, child, r, v, cs[1..], h);
      if cs[0].table != child then rest
      else if !PointsAt(cs[0], r, row) then Plus(Meter(0, 1), rest)
      else Plus(Meter(0, 1), Plus(Cost(fs, rows, cs[0], v, h), rest))
  }

  ghost function CostTotal(fs: CheckedFormulas, rows: seq<RawRecord>, row: RawRecord, vs: seq<Expression>, h: nat): Meter
    decreases h, 1, |vs|
  {
    if vs == [] then Meter(0, 0)
    else Plus(Cost(fs, rows, row, vs[0], h), CostTotal(fs, rows, row, vs[1..], h))
  }

  /** The snapshot and every record are visible. */
  ghost predicate RecordsVisible(p: OutputPolicy) {
    p.snapshot && forall k :: p.record(k)
  }

  /** A completed evaluation moved the budget by exactly `cost`; an incomplete one overflowed, or `cost` is beyond the limits. */
  ghost predicate Completed<T>(r: (Result<T, FormulaError>, Meter), m: Meter, cost: Meter, l: Limits) {
    match r.0
    case Ok(_) => r.1 == Plus(m, cost) && Within(r.1, l)
    case Err(x) => x == Overflow || ((x == NodeBudgetExceeded || x == RecordBudgetExceeded) && !Within(Plus(m, cost), l))
  }

  ghost predicate CompletesAt(env: Env, row: RawRecord, e: Expression, depth: nat, m: Meter)
    requires Kind(env.fs, row.table, e, Height(env.fs.limits, depth)).Some?
  {
    Completed(Eval(env, row, e, depth, m), m, Cost(env.fs, env.rows, row, e, Height(env.fs.limits, depth)), env.fs.limits)
  }

  lemma {:induction false} Completes(env: Env, row: RawRecord, e: Expression, depth: nat, m: Meter,
                                     nodes: nat, visiting: set<FormulaKey>, k: NumericKind)
    requires Serves(env) && row in env.rows && RecordsVisible(env.policy)
    requires Check(env.fs, row.table, e, depth, nodes, visiting).0 == Ok(k)
    requires Kind(env.fs, row.table, e, Height(env.fs.limits, depth)) == Some(k)
    requires Authorizes(env.fs, env.policy, row.table, e, Height(env.fs.limits, depth))
    requires Within(m, env.fs.limits)
    ensures CompletesAt(env, row, e, depth, m)
    decreases Height(env.fs.limits, depth), 0, 0
  {
    hide Eval, Check, Kind, Serves, RecordsVisible, Authorizes, CompletesAt;
    CheckEnters(env.fs, row.table, e, depth, nodes, visiting);
    if m.nodes + 1 > env.fs.limits.maxNodes {
      NodesExhausted(env, row, e, depth, m);
    } else {
      match e
      case FieldValue(f) => FieldCompletes(env, row, f, depth, m, k);
      case Lookup(r, f) => LookupCompletes(env, row, r, f, depth, m, k);
      case Sum(child, r, v) => SumCompletes(env, row, child, r, v, depth, m, nodes, visiting, k);
      case Product(a, b) => ProductCompletes(env, row, a, b, depth, m, nodes, visiting, k);
      case Total(vs) => TotalCaseCompletes(env, row, vs, depth, m, nodes, visiting, k);
      case Named(name) => NamedCompletes(env, row, name, depth, m, nodes, visiting, k);
    }
  }

  /** Every expression costs at least its own node. */
  lemma NodesExhausted(env: Env, row: RawRecord, e: Expression, depth: nat, m: Meter)
    requires Kind(env.fs, row.table, e, Height(env.fs.limits, depth)).Some? && m.nodes + 1 > env.fs.limits.maxNodes
    ensures CompletesAt(env, row, e, depth, m)
  {
    hide Eval;
    EvalExhausted(env, row, e, depth, m);
  }

  lemma FieldCompletes(env: Env, row: RawRecord, f: FieldId, depth: nat, m: Meter, k: NumericKind)
    requires Serves(env) && row in env.rows && RecordsVisible(env.policy)
    requires Kind(env.fs, row.table, FieldValue(f), Height(env.fs.limits, depth)) == Some(k)
    requires Authorizes(env.fs, env.policy, row.table, FieldValue(f), Height(env.fs.limits, depth))
    requires Within(m.(nodes := m.nodes + 1), env.fs.limits)
    ensures CompletesAt(env, row, FieldValue(f), depth, m)
  {
    FieldNumber(env, row, f);
  }

  lemma LookupAllowed(env: Env, row: RawRecord, r: FieldId, f: FieldId)
    requires Serves(env) && row in env.rows && RecordsVisible(env.policy)
    requires LookupKind(env.fs.shape, row.table, r, f).Ok?
    requires env.policy.field(Key(row.table, r)) && env.policy.field(Key(RefTarget(env.fs.shape, row.table, r).value, f))
    ensures LookupValue(env, RecordKey(row), r, f).Ok?
  {
    FindRowUnique(env.rows, row);
    assert FieldServes(env, row, r);
  }

  lemma LookupCompletes(env: Env, row: RawRecord, r: FieldId, f: FieldId, depth: nat, m: Meter, k: NumericKind)
    requires Serves(env) && row in env.rows && RecordsVisible(env.policy)
    requires Kind(env.fs, row.table, Lookup(r, f), Height(env.fs.limits, depth)) == Some(k)
    requires Authorizes(env.fs, env.policy, row.table, Lookup(r, f), Height(env.fs.limits, depth))
    requires Within(m.(nodes := m.nodes + 1), env.fs.limits)
    ensures CompletesAt(env, row, Lookup(r, f), depth, m)
  {
    hide LookupValue, DenoteLookup, Serves, RecordsVisible;
    LookupSound(env, row, r, f);
    LookupAllowed(env, row, r, f);
  }

  lemma NamedCost(fs: CheckedFormulas, rows: seq<RawRecord>, row: RawRecord, name: string, h: nat)
    requires FormulaKey(row.table, name) in fs.definitions
    ensures Cost(fs, rows, row, Named(name), h + 1)
            == Plus(Meter(1, 0), Cost(fs, rows, row, fs.definitions[FormulaKey(row.table, name)], h))
  {
    hide CostChildren, CostTotal, Get, Plus;
  }

  lemma NamedNeeds(fs: CheckedFormulas, p: OutputPolicy, table: TableId, name: string, h: nat)
    requires Kind(fs, table, Named(name), h + 1).Some?
    ensures FormulaKey(table, name) in fs.definitions
    ensures Authorizes(fs, p, table, Named(name), h + 1)
            == Authorizes(fs, p, table, fs.definitions[FormulaKey(table, name)], h)
  {
    hide AuthorizesAll, AllowsScan, CollectFields;
  }

  lemma ProductCost(fs: CheckedFormulas, rows: seq<RawRecord>, row: RawRecord, a: Expression, b: Expression, h: nat)
    ensures Cost(fs, rows, row, Product(a, b), h + 1)
            == Plus(Meter(1, 0), Plus(Cost(fs, rows, row, a, h), Cost(fs, rows, row, b, h)))
  {
    hide CostChildren, CostTotal, Get, Plus;
  }

  lemma ProductNeeds(fs: CheckedFormulas, p: OutputPolicy, table: TableId, a: Expression, b: Expression, h: nat)
    requires Kind(fs, table, Product(a, b), h + 1).Some? && Kind(fs, table, a, h).Some? && Kind(fs, table, b, h).Some?
    ensures Authorizes(fs, p, table, Product(a, b), h + 1) == (Authorizes(fs, p, table, a, h) && Authorizes(fs, p, table, b, h))
  {
    hide CollectFields, AllowsScan, AuthorizesAll;
  }

  lemma {:induction false} NamedCompletes(env: Env, row: RawRecord, name: string, depth: nat, m: Meter,
                                          nodes: nat, visiting: set<FormulaKey>, k: NumericKind)
    requires Serves(env) && row in env.rows && RecordsVisible(env.policy)
    requires Check(env.fs, row.table, Named(name), depth, nodes, visiting).0 == Ok(k)
    requires Kind(env.fs, row.table, Named(name), Height(env.fs.limits, depth)) == Some(k)
    requires Authorizes(env.fs, env.policy, row.table, Named(name), Height(env.fs.limits, depth))
    requires Within(m.(nodes := m.nodes + 1), env.fs.limits)
    ensures CompletesAt(env, row, Named(name), depth, m)
    decreases Height(env.fs.limits, depth + 1), 3, 0
  {
    hide Eval, Check, Kind, Serves, RecordsVisible, Cost, Authorizes;
    var key := FormulaKey(row.table, name);
    CheckEnters(env.fs, row.table, Named(name), depth, nodes, visiting);
    NamedNeeds(env.fs, env.policy, row.table, name, Height(env.fs.limits, depth + 1));
    NamedCost(env.fs, env.rows, row, name, Height(env.fs.limits, depth + 1));
    NamedUnfolds(env, row, name, depth, m, nodes, visiting);
    Completes(env, row, env.fs.definitions[key], depth + 1, m.(nodes := m.nodes + 1), nodes + 1, visiting + {key}, k);
  }

  lemma {:induction false} ProductCompletes(env: Env, row: RawRecord, a: Expression, b: Expression, depth: nat, m: Meter,
                                            nodes: nat, visiting: set<FormulaKey>, k: NumericKind)
    requires Serves(env) && row in env.rows && RecordsVisible(env.policy)
    requires Check(env.fs, row.table, Product(a, b), depth, nodes, visiting).0 == Ok(k)
    requires Kind(env.fs, row.table, Product(a, b), Height(env.fs.limits, depth)) == Some(k)
    requires Authorizes(env.fs, env.policy, row.table, Product(a, b), Height(env.fs.limits, depth))
    requires Within(m.(nodes := m.nodes + 1), env.fs.limits)
    ensures CompletesAt(env, row, Product(a, b), depth, m)
    decreases Height(env.fs.limits, depth + 1), 3, 0
  {
    hide Eval, Check, Kind, Serves, RecordsVisible, Cost, Authorizes, MultiplyNumbers, Denote, InRange;
    var fs := env.fs;
    var m1 := m.(nodes := m.nodes + 1);
    CheckEnters(fs, row.table, Product(a, b), depth, nodes, visiting);
    ProductTyped(fs, row.table, a, b, Height(fs.limits, depth + 1));
    ProductChecks(fs, row.table, a, b, depth, nodes, visiting);
    ProductCost(fs, env.rows, row, a, b, Height(fs.limits, depth + 1));
    ProductNeeds(fs, env.policy, row.table, a, b, Height(fs.limits, depth + 1));
    ProductUnfolds(env, row, a, b, depth, m);
    var left := Check(fs, row.table, a, depth + 1, nodes + 1, visiting);
    var right := Check(fs, row.table, b, depth + 1, left.1, visiting);
    CheckTyped(fs, row.table, a, depth + 1, nodes + 1, visiting);
    CheckTyped(fs, row.table, b, depth + 1, left.1, visiting);
    Completes(env, row, a, depth + 1, m1, nodes + 1, visiting, left.0.value);
    EvalSound(env, row, a, depth + 1, m1, nodes + 1, visiting, left.0.value);
    var one := Eval(env, row, a, depth + 1, m1);
    if one.0.Ok? {
      Completes(env, row, b, depth + 1, one.1, left.1, visiting, right.0.value);
      EvalSound(env, row, b, depth + 1, one.1, left.1, visiting, right.0.value);
      var two := Eval(env, row, b, depth + 1, one.1);
      if two.0.Ok? {
        MultiplyOnlyOverflows(one.0.value, two.0.value, left.0.value, right.0.value);
      }
    }
  }

  lemma MultiplyOnlyOverflows(a: Numeric, b: Numeric, ka: NumericKind, kb: NumericKind)
    requires ProductKind(ka, kb).Ok? && KindOf(a) == ka && KindOf(b) == kb
    ensures MultiplyNumbers(a, b).Err? ==> MultiplyNumbers(a, b).error == Overflow
  {
  }

  lemma {:induction false} SumCompletes(env: Env, row: RawRecord, child: TableId, r: FieldId, v: Expression, depth: nat,
                                        m: Meter, nodes: nat, visiting: set<FormulaKey>, k: NumericKind)
    requires Serves(env) && row in env.rows && RecordsVisible(env.policy)
    requires Check(env.fs, row.table, Sum(child, r, v), depth, nodes, visiting).0 == Ok(k)
    requires Kind(env.fs, row.table, Sum(child, r, v), Height(env.fs.limits, depth)) == Some(k)
    requires Authorizes(env.fs, env.policy, row.table, Sum(child, r, v), Height(env.fs.limits, depth))
    requires Within(m.(nodes := m.nodes + 1), env.fs.limits)
    ensures CompletesAt(env, row, Sum(child, r, v), depth, m)
    decreases Height(env.fs.limits, depth + 1), 3, 0
  {
    hide Eval, Check, Kind, Serves, RecordsVisible, EvalChildren, CostChildren, CollectFields;
    var m1 := m.(nodes := m.nodes + 1);
    CheckEnters(env.fs, row.table, Sum(child, r, v), depth, nodes, visiting);
    SumUnfolds(env, row, child, r, v, depth, m, nodes, visiting);
    CheckTyped(env.fs, child, v, depth + 1, nodes + 1, visiting);
    CheckMonotone(env.fs, child, v, depth + 1, nodes + 1, visiting, 1, 0, {});
    assert env.rows[0..] == env.rows;
    ChildrenComplete(env, row, child, r, v, depth + 1, 0, 0, m1, nodes + 1, visiting, k);
  }

  lemma {:induction false} ChildrenComplete(env: Env, row: RawRecord, child: TableId, r: FieldId, v: Expression, depth: nat,
                                            i: nat, sum: i64, m: Meter, nodes: nat, visiting: set<FormulaKey>, k: NumericKind)
    requires Serves(env) && row in env.rows && RecordsVisible(env.policy) && i <= |env.rows|
    requires Check(env.fs, child, v, depth, nodes, visiting).0 == Ok(k)
    requires Kind(env.fs, child, v, Height(env.fs.limits, depth)) == Some(k)
    requires env.policy.field(Key(child, r)) && Authorizes(env.fs, env.policy, child, v, Height(env.fs.limits, depth))
    requires Within(m, env.fs.limits)
    ensures Completed(EvalChildren(env, row, child, r, v, depth, env.rows[i..], sum, m), m,
                      CostChildren(env.fs, env.rows, row, child, r, v, env.rows[i..], Height(env.fs.limits, depth)), env.fs.limits)
    decreases Height(env.fs.limits, depth), 1, |env.rows| - i
  {
    hide Eval, Check, Kind, Serves, Authorizes, PointsAt, Cost, EvalChildren, CostChildren, RecordsVisible, AllowsField, Completed, Within;
    var h := Height(env.fs.limits, depth);
    var l := env.fs.limits;
    ChildrenCost(env, row, child, r, v, h, i);
    if i == |env.rows| {
      assert env.rows[i..] == [];
      NoMoreChildren(env, row, child, r, v, depth, sum, m);
      NothingSpent(sum, m, l);
    } else {
      var c := env.rows[i];
      ChildrenUnfold(env, row, child, r, v, depth, i, sum, m);
      if c.table != child {
        ChildrenComplete(env, row, child, r, v, depth, i + 1, sum, m, nodes, visiting, k);
      } else {
        FieldAllowed(env.policy, c, r);
        var m1 := m.(records := m.records + 1);
        var left := CostChildren(env.fs, env.rows, row, child, r, v, env.rows[i + 1..], h);
        var cost := if PointsAt(c, r, row) then Plus(Cost(env.fs, env.rows, c, v, h), left) else left;
        RecordSpent<i64>(m, cost, l);
        if m.records + 1 <= l.maxRecords {
          if !PointsAt(c, r, row) {
            ChildrenComplete(env, row, child, r, v, depth, i + 1, sum, m1, nodes, visiting, k);
            AfterRecord(EvalChildren(env, row, child, r, v, depth, env.rows[i + 1..], sum, m1), m, left, l);
          } else {
            Completes(env, c, v, depth, m1, nodes, visiting, k);
            var one := Eval(env, c, v, depth, m1);
            ChildFails<Numeric, i64>(one, m, Cost(env.fs, env.rows, c, v, h), left, l);
            if one.0.Ok? && InI64(sum + OrZero(NumberOf(one.0.value))) {
              var next := sum + OrZero(NumberOf(one.0.value));
              ChildrenComplete(env, row, child, r, v, depth, i + 1, next, one.1, nodes, visiting, k);
              var rest := EvalChildren(env, row, child, r, v, depth, env.rows[i + 1..], next, one.1);
              CompletedAfter(one, rest, m1, Cost(env.fs, env.rows, c, v, h), left, l);
              AfterRecord(rest, m, cost, l);
            } else if one.0.Ok? {
              OverflowCompletes<i64>(one.1, m, Plus(Meter(0, 1), cost), l);
            }
          }
        }
      }
    }
  }

  lemma NothingSpent<T>(value: T, m: Meter, l: Limits)
    requires Within(m, l)
    ensures Completed((Ok(value), m), m, Meter(0, 0), l)
  {
  }

  /** Reading one record exhausts the record budget or leaves a budget within the limits. */
  lemma RecordSpent<T>(m: Meter, cost: Meter, l: Limits)
    requires Within(m, l)
    ensures var m1 := m.(records := m.records + 1);
            if m.records + 1 > l.maxRecords then Completed<T>((Err(RecordBudgetExceeded), m1), m, Plus(Meter(0, 1), cost), l)
            else Within(m1, l)
  {
  }

  lemma AfterRecord<T>(other: (Result<T, FormulaError>, Meter), m: Meter, cost: Meter, l: Limits)
    requires Completed(other, m.(records := m.records + 1), cost, l)
    ensures Completed(other, m, Plus(Meter(0, 1), cost), l)
  {
  }

  lemma ChildFails<T, U>(one: (Result<T, FormulaError>, Meter), m: Meter, cost: Meter, rest: Meter, l: Limits)
    requires Completed(one, m.(records := m.records + 1), cost, l)
    ensures one.0.Err? ==> Completed<U>((Err(one.0.error), one.1), m, Plus(Meter(0, 1), Plus(cost, rest)), l)
    ensures one.0.Ok? ==> Within(one.1, l)
  {
  }

  lemma FieldAllowed(p: OutputPolicy, row: RawRecord, f: FieldId)
    requires RecordsVisible(p) && p.field(Key(row.table, f))
    ensures AllowsField(p, row, f)
  {
  }

  lemma ChildrenCost(env: Env, row: RawRecord, child: TableId, r: FieldId, v: Expression, h: nat, i: nat)
    requires i <= |env.rows|
    ensures CostChildren(env.fs, env.rows, row, child, r, v, env.rows[i..], h) ==
              if i == |env.rows| then Meter(0, 0)
              else
                var c := env.rows[i];
                var rest := CostChildren(env.fs, env.rows, row, child, r, v, env.rows[i + 1..], h);
                if c.table != child then rest
                else if !PointsAt(c, r, row) then Plus(Meter(0, 1), rest)
                else Plus(Meter(0, 1), Plus(Cost(env.fs, env.rows, c, v, h), rest))
  {
    hide Cost, PointsAt;
    if i < |env.rows| {
      assert env.rows[i..][1..] == env.rows[i + 1..];
    }
  }

  lemma {:induction false} TotalCaseCompletes(env: Env, row: RawRecord, vs: seq<Expression>, depth: nat, m: Meter,
                                              nodes: nat, visiting: set<FormulaKey>, k: NumericKind)
    requires Serves(env) && row in env.rows && RecordsVisible(env.policy)
    requires Check(env.fs, row.table, Total(vs), depth, nodes, visiting).0 == Ok(k)
    requires Kind(env.fs, row.table, Total(vs), Height(env.fs.limits, depth)) == Some(k)
    requires Authorizes(env.fs, env.policy, row.table, Total(vs), Height(env.fs.limits, depth))
    requires Within(m.(nodes := m.nodes + 1), env.fs.limits)
    ensures CompletesAt(env, row, Total(vs), depth, m)
    decreases Height(env.fs.limits, depth + 1), 3, 0
  {
    hide Eval, Check, CheckAll, Kind, Serves, RecordsVisible, EvalTotal, CostTotal;
    CheckEnters(env.fs, row.table, Total(vs), depth, nodes, visiting);
    TotalUnfolds(env, row, vs, depth, m, nodes, visiting);
    CheckAllTyped(env.fs, row.table, vs, depth + 1, nodes + 1, visiting, None);
    assert vs[0..] == vs;
    TotalCompletes(env, row, vs, depth + 1, 0, None, 0, m.(nodes := m.nodes + 1), nodes + 1, visiting, k);
  }

  lemma NextSummand(env: Env, row: RawRecord, vs: seq<Expression>, h: nat, i: nat)
    requires i < |vs| && forall j :: 0 <= j < |vs| ==> Kind(env.fs, row.table, vs[j], h).Some?
    ensures CostTotal(env.fs, env.rows, row, vs[i..], h)
            == Plus(Cost(env.fs, env.rows, row, vs[i], h), CostTotal(env.fs, env.rows, row, vs[i + 1..], h))
    ensures AuthorizesAll(env.fs, env.policy, row.table, vs[i..], h) <==>
              Authorizes(env.fs, env.policy, row.table, vs[i], h) && AuthorizesAll(env.fs, env.policy, row.table, vs[i + 1..], h)
  {
    hide Kind, Cost, Authorizes;
    assert vs[i..][1..] == vs[i + 1..];
  }

  lemma {:induction false} TotalCompletes(env: Env, row: RawRecord, vs: seq<Expression>, depth: nat, i: nat,
                                          kind: Option<NumericKind>, sum: i64, m: Meter,
                                          nodes: nat, visiting: set<FormulaKey>, k: NumericKind)
    requires Serves(env) && row in env.rows && RecordsVisible(env.policy) && i <= |vs|
    requires CheckAll(env.fs, row.table, vs[i..], depth, nodes, visiting, kind).0 == Ok(k)
    requires kind.Some? ==> kind.value == k
    requires forall j :: 0 <= j < |vs| ==> Kind(env.fs, row.table, vs[j], Height(env.fs.limits, depth)) == Some(k)
    requires AuthorizesAll(env.fs, env.policy, row.table, vs[i..], Height(env.fs.limits, depth))
    requires Within(m, env.fs.limits)
    ensures Completed(EvalTotal(env, row, vs[i..], depth, kind, sum, m), m,
                      CostTotal(env.fs, env.rows, row, vs[i..], Height(env.fs.limits, depth)), env.fs.limits)
    decreases Height(env.fs.limits, depth), 1, |vs| - i
  {
    hide Eval, Kind, Check, Authorizes, Serves, RecordsVisible, Cost, Completed, Within, EvalTotal, CheckAll, CostTotal, AuthorizesAll;
    if i == |vs| {
      assert vs[i..] == [];
      NoSummands(env, row, vs, depth, kind, sum, m, nodes, visiting);
    } else {
      var h := Height(env.fs.limits, depth);
      NextSummand(env, row, vs, h, i);
      TotalUnfold(env, row, vs, depth, i, kind, sum, m, nodes, visiting);
      var head := Check(env.fs, row.table, vs[i], depth, nodes, visiting);
      CheckTyped(env.fs, row.table, vs[i], depth, nodes, visiting);
      Completes(env, row, vs[i], depth, m, nodes, visiting, k);
      SummandKind(env, row, vs[i], depth, m, nodes, visiting, k);
      var one := Eval(env, row, vs[i], depth, m);
      var rest := CostTotal(env.fs, env.rows, row, vs[i + 1..], h);
      CompletedStep(one, m, Cost(env.fs, env.rows, row, vs[i], h), rest, env.fs.limits);
      if one.0.Ok? && InI64(sum + OrZero(NumberOf(one.0.value))) {
        var next := sum + OrZero(NumberOf(one.0.value));
        TotalCompletes(env, row, vs, depth, i + 1, Some(k), next, one.1, head.1, visiting, k);
        CompletedAfter(one, EvalTotal(env, row, vs[i + 1..], depth, Some(k), next, one.1), m,
                       Cost(env.fs, env.rows, row, vs[i], h), rest, env.fs.limits);
      } else if one.0.Ok? {
        OverflowCompletes<Numeric>(one.1, m, CostTotal(env.fs, env.rows, row, vs[i..], h), env.fs.limits);
      }
    }
  }

  lemma NoSummands(env: Env, row: RawRecord, vs: seq<Expression>, depth: nat, kind: Option<NumericKind>, sum: i64, m: Meter,
                   nodes: nat, visiting: set<FormulaKey>)
    requires CheckAll(env.fs, row.table, [], depth, nodes, visiting, kind).0.Ok? && Within(m, env.fs.limits)
    ensures Completed(EvalTotal(env, row, [], depth, kind, sum, m), m, CostTotal(env.fs, env.rows, row, [], Height(env.fs.limits, depth)), env.fs.limits)
  {
  }

  /** A checked summand that answers has the checked kind. */
  lemma SummandKind(env: Env, row: RawRecord, e: Expression, depth: nat, m: Meter, nodes: nat, visiting: set<FormulaKey>, k: NumericKind)
    requires Serves(env) && row in env.rows
    requires Check(env.fs, row.table, e, depth, nodes, visiting).0 == Ok(k)
    requires Kind(env.fs, row.table, e, Height(env.fs.limits, depth)) == Some(k)
    ensures var one := Eval(env, row, e, depth, m);
            one.0.Ok? ==> KindOf(one.0.value) == k
  {
    hide Eval, Kind, Check, Serves, Denote, InRange;
    EvalSound(env, row, e, depth, m, nodes, visiting, k);
  }

  /** A part that fails fails the whole, for the reason it failed itself; a part that answers leaves a budget within the limits. */
  lemma CompletedStep<T>(one: (Result<T, FormulaError>, Meter), m: Meter, cost: Meter, rest: Meter, l: Limits)
    requires Completed(one, m, cost, l)
    ensures one.0.Err? ==> Completed(one, m, Plus(cost, rest), l)
    ensures one.0.Ok? ==> Within(one.1, l)
  {
  }

  /** Costs of parts that are evaluated one after the other add up. */
  lemma CompletedAfter<T, U>(one: (Result<T, FormulaError>, Meter), other: (Result<U, FormulaError>, Meter), m: Meter, cost: Meter, rest: Meter, l: Limits)
    requires Completed(one, m, cost, l) && one.0.Ok? && Completed(other, one.1, rest, l)
    ensures Completed(other, m, Plus(cost, rest), l)
  {
  }

  lemma OverflowCompletes<T>(spent: Meter, m: Meter, cost: Meter, l: Limits)
    ensures Completed<T>((Err(Overflow), spent), m, cost, l)
  {
  }
}
