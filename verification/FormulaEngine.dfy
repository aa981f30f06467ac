/**
 The formula operations as they run: one mutable budget and one set of formulas being visited are
 threaded through recursion and loops, and each operation answers what its function in Formulas says.
 */
module FormulaEngine {
  import opened Wrappers
  import opened Sorting
  import opened AppSpec
  import opened Records
  import opened Formulas
  import opened FormulaProofs
  import opened FormulaCosts

  class Budget {
    const limits: Limits
    var nodes: nat
    var records: nat

    constructor (limits: Limits)
      ensures this.limits == limits && nodes == 0 && records == 0
    {
      this.limits := limits;
      nodes, records := 0, 0;
    }

    function Spent(): Meter
      reads this
    {
      Meter(nodes, records)
    }

    method Node(depth: nat) returns (failure: Option<FormulaError>)
      modifies this`nodes
      ensures (failure, nodes) == ChargeNode(limits, depth, old(nodes))
    {
      if depth > limits.maxDepth {
        return Some(DepthExceeded);
      }
      nodes := nodes + 1;
      if nodes > limits.maxNodes {
        return Some(NodeBudgetExceeded);
      }
      failure := None;
    }

    method Record() returns (failure: Option<FormulaError>)
      modifies this`records
      ensures (failure, records) == ChargeRecord(limits, old(records))
    {
      records := records + 1;
      failure := if records > limits.maxRecords then Some(RecordBudgetExceeded) else None;
    }
  }

  /** The formulas a check is inside of; the same set object is passed down the whole walk. */
  class Visiting {
    var keys: set<FormulaKey>

    constructor (keys: set<FormulaKey>)
      ensures this.keys == keys
    {
      this.keys := keys;
    }
  }

  // ------------------------------------------------------------ check

  /** On success the walk leaves no trace in `visiting`; the budget moves as `Check` says in any case. */
  method CheckExpression(fs: CheckedFormulas, table: TableId, e: Expression, depth: nat, budget: Budget, visiting: Visiting)
    returns (r: Result<NumericKind, FormulaError>)
    requires budget.limits == fs.limits
    modifies budget`nodes, visiting
    ensures (r, budget.nodes) == Check(fs, table, e, depth, old(budget.nodes), old(visiting.keys))
    ensures r.Ok? ==> visiting.keys == old(visiting.keys)
    decreases Height(fs.limits, depth), 0
  {
    var failure := budget.Node(depth);
    if failure.Some? {
      return Err(failure.value);
    }
    match e
    case FieldValue(f) => r := FieldKind(fs.shape, table, f);
    case Lookup(ref, f) => r := LookupKind(fs.shape, table, ref, f);
    case Sum(child, ref, v) =>
      var target := RefTarget(fs.shape, child, ref);
      if target.Err? {
        return Err(target.error);
      }
      if target.value != table {
        return Err(ReferenceTargetMismatch);
      }
      r := CheckExpression(fs, child, v, depth + 1, budget, visiting);
    case Product(a, b) =>
      r := CheckExpression(fs, table, a, depth + 1, budget, visiting);
      if r.Ok? {
        var left := r.value;
        r := CheckExpression(fs, table, b, depth + 1, budget, visiting);
        if r.Ok? {
          r := ProductKind(left, r.value);
        }
      }
    case Total(vs) => r := CheckSummands(fs, table, vs, depth + 1, budget, visiting);
    case Named(name) =>
      var key := FormulaKey(table, name);
      if key in visiting.keys {
        return Err(FormulaCycle);
      }
      visiting.keys := visiting.keys + {key};
      if key !in fs.definitions {
        return Err(MissingFormula);
      }
      r := CheckExpression(fs, table, fs.definitions[key], depth + 1, budget, visiting);
      if r.Ok? {
        visiting.keys := visiting.keys - {key};
      }
  }

  method CheckSummands(fs: CheckedFormulas, table: TableId, vs: seq<Expression>, depth: nat, budget: Budget, visiting: Visiting)
    returns (r: Result<NumericKind, FormulaError>)
    requires budget.limits == fs.limits
    modifies budget`nodes, visiting
    ensures (r, budget.nodes) == CheckAll(fs, table, vs, depth, old(budget.nodes), old(visiting.keys), None)
    ensures r.Ok? ==> visiting.keys == old(visiting.keys)
    decreases Height(fs.limits, depth), 1
  {
    var kind: Option<NumericKind> := None;
    var i := 0;
    ghost var expected := CheckAll(fs, table, vs, depth, budget.nodes, visiting.keys, None);
    assert vs[0..] == vs;
    while i < |vs|
      invariant 0 <= i <= |vs|
      invariant visiting.keys == old(visiting.keys)
      invariant CheckAll(fs, table, vs[i..], depth, budget.nodes, visiting.keys, kind) == expected
    {
      assert vs[i..][1..] == vs[i + 1..];
      var current := CheckExpression(fs, table, vs[i], depth, budget, visiting);
      if current.Err? {
        return current;
      }
      if kind.Some? && kind.value != current.value {
        return Err(NumericTypeMismatch);
      }
      kind := Some(current.value);
      i := i + 1;
    }
    r := if kind.None? then Err(EmptyTotal) else Ok(kind.value);
  }

  // ------------------------------------------------------------ evaluation

  method EvaluateExpression(env: Env, row: RawRecord, e: Expression, depth: nat, budget: Budget)
    returns (r: Result<Numeric, FormulaError>)
    requires budget.limits == env.fs.limits
    requires Kind(env.fs, row.table, e, Height(env.fs.limits, depth)).Some?
    modifies budget
    ensures (r, budget.Spent()) == Eval(env, row, e, depth, old(budget.Spent()))
    decreases Height(env.fs.limits, depth), 0
  {
    var fs := env.fs;
    var failure := budget.Node(depth);
    if failure.Some? {
      return Err(failure.value);
    }
    match e
    case FieldValue(f) =>
      if !AllowsField(env.policy, row, f) {
        return Err(OutputDenied);
      }
      var kind := FieldKind(fs.shape, row.table, f);
      r := match kind case Err(x) => Err(x) case Ok(k) => ValueNumber(Get(row.values, f), k);
    case Lookup(ref, f) => r := EvaluateLookup(env, row, ref, f, budget);
    case Sum(child, ref, v) =>
      match RefTarget(fs.shape, child, ref) {
        case Err(x) => return Err(x);
        case Ok(target) =>
          if target != row.table {
            return Err(ReferenceTargetMismatch);
          }
      }
      if !AllowsScan(env.policy, child, {ref} + CollectFields(fs, child, v, Height(fs.limits, depth + 1))) {
        return Err(OutputDenied);
      }
      r := EvaluateSum(env, row, child, ref, v, depth + 1, budget);
    case Product(a, b) =>
      r := EvaluateExpression(env, row, a, depth + 1, budget);
      if r.Ok? {
        var left := r.value;
        r := EvaluateExpression(env, row, b, depth + 1, budget);
        if r.Ok? {
          r := MultiplyNumbers(left, r.value);
        }
      }
    case Total(vs) => r := EvaluateTotal(env, row, vs, depth + 1, budget);
    case Named(name) => r := EvaluateExpression(env, row, fs.definitions[FormulaKey(row.table, name)], depth + 1, budget);
  }

  method EvaluateLookup(env: Env, row: RawRecord, ref: FieldId, f: FieldId, budget: Budget)
    returns (r: Result<Numeric, FormulaError>)
    requires budget.limits == env.fs.limits
    modifies budget
    ensures (r, budget.Spent()) == EvalLookup(env, row, ref, f, old(budget.Spent()))
  {
    var target := RefTarget(env.fs.shape, row.table, ref);
    if target.Err? {
      return Err(target.error);
    }
    if Get(row.values, ref).Ref? {
      var failure := budget.Record();
      if failure.Some? {
        return Err(failure.value);
      }
    }
    var kind := FieldKind(env.fs.shape, target.value, f);
    if kind.Err? {
      return Err(kind.error);
    }
    var value := LookupValue(env, RecordKey(row), ref, f);
    r := match value case Err(x) => Err(x) case Ok(v) => ValueNumber(v, kind.value);
  }

  method EvaluateSum(env: Env, row: RawRecord, child: TableId, ref: FieldId, v: Expression, depth: nat, budget: Budget)
    returns (r: Result<Numeric, FormulaError>)
    requires budget.limits == env.fs.limits
    requires Kind(env.fs, child, v, Height(env.fs.limits, depth)).Some?
    modifies budget
    ensures (r, budget.Spent()) == EvalSum(env, row, child, ref, v, depth, old(budget.Spent()))
    decreases Height(env.fs.limits, depth), 2
  {
    hide Eval, Kind;
    var compileBudget := new Budget(env.fs.limits);
    var visiting := new Visiting({});
    var kind := CheckExpression(env.fs, child, v, 1, compileBudget, visiting);
    if kind.Err? {
      return Err(kind.error);
    }
    var sum: i64 := 0;
    var i := 0;
    ghost var expected := EvalChildren(env, row, child, ref, v, depth, env.rows, 0, budget.Spent());
    assert env.rows[0..] == env.rows;
    while i < |env.rows|
      invariant 0 <= i <= |env.rows|
      invariant EvalChildren(env, row, child, ref, v, depth, env.rows[i..], sum, budget.Spent()) == expected
    {
      hide EvalChildren, Check, AllowsField, PointsAt;
      ChildrenUnfold(env, row, child, ref, v, depth, i, sum, budget.Spent());
      var c := env.rows[i];
      if c.table == child {
        if !AllowsField(env.policy, c, ref) {
          return Err(OutputDenied);
        }
        var failure := budget.Record();
        if failure.Some? {
          return Err(failure.value);
        }
        if PointsAt(c, ref, row) {
          var one := EvaluateExpression(env, c, v, depth, budget);
          if one.Err? {
            return one;
          }
          var next := sum + OrZero(NumberOf(one.value));
          if !InI64(next) {
            return Err(Overflow);
          }
          sum := next;
        }
      }
      i := i + 1;
    }
    r := Ok(FromNumber(kind.value, sum));
  }

  method EvaluateTotal(env: Env, row: RawRecord, vs: seq<Expression>, depth: nat, budget: Budget)
    returns (r: Result<Numeric, FormulaError>)
    requires budget.limits == env.fs.limits
    requires forall i :: 0 <= i < |vs| ==> Kind(env.fs, row.table, vs[i], Height(env.fs.limits, depth)).Some?
    modifies budget
    ensures (r, budget.Spent()) == EvalTotal(env, row, vs, depth, None, 0, old(budget.Spent()))
    decreases Height(env.fs.limits, depth), 1
  {
    hide Eval, Kind;
    var kind: Option<NumericKind> := None;
    var sum: i64 := 0;
    var i := 0;
    ghost var expected := EvalTotal(env, row, vs, depth, None, 0, budget.Spent());
    assert vs[0..] == vs;
    while i < |vs|
      invariant 0 <= i <= |vs|
      invariant EvalTotal(env, row, vs[i..], depth, kind, sum, budget.Spent()) == expected
    {
      assert vs[i..][1..] == vs[i + 1..];
      var one := EvaluateExpression(env, row, vs[i], depth, budget);
      if one.Err? {
        return one;
      }
      if kind.Some? && kind.value != KindOf(one.value) {
        return Err(NumericTypeMismatch);
      }
      kind := Some(KindOf(one.value));
      var next := sum + OrZero(NumberOf(one.value));
      if !InI64(next) {
        return Err(Overflow);
      }
      sum := next;
      i := i + 1;
    }
    r := if kind.None? then Err(EmptyTotal) else Ok(FromNumber(kind.value, sum));
  }

  // ------------------------------------------------------------ whole formulas

  lemma AcceptedKind(fs: CheckedFormulas, key: FormulaKey)
    requires Accepted(fs) && key in fs.definitions
    ensures Kind(fs, key.table, fs.definitions[key], Height(fs.limits, 1)) == Some(fs.kinds[key])
  {
    CheckTyped(fs, key.table, fs.definitions[key], 1, 0, {key});
  }

  /** `evaluate`: permission first, then the shape of the store, then a fresh budget charged for the root row. */
  method Evaluate(env: Env, spec: Spec, table: TableId, record: RecordId, name: string)
    returns (r: Result<Numeric, FormulaError>)
    requires Accepted(env.fs)
    ensures var key := FormulaKey(table, name);
            var row := FindRow(env.rows, Key(table, record));
            r == if !env.policy.snapshot then Err(OutputDenied)
                 else if key !in env.fs.definitions then Err(MissingFormula)
                 else if !env.policy.record(Key(table, record)) then Err(OutputDenied)
                 else if row.None? then Err(MissingRecord)
                 else if env.fs.shape != ShapeOf(spec) then Err(DefinitionMismatch)
                 else (AcceptedKind(env.fs, key); EvaluateFormula(env, row.value, key))
  {
    var key := FormulaKey(table, name);
    if !env.policy.snapshot {
      return Err(OutputDenied);
    }
    if key !in env.fs.definitions {
      return Err(MissingFormula);
    }
    if !env.policy.record(Key(table, record)) {
      return Err(OutputDenied);
    }
    var found := FindRow(env.rows, Key(table, record));
    if found.None? {
      return Err(MissingRecord);
    }
    if env.fs.shape != ShapeOf(spec) {
      return Err(DefinitionMismatch);
    }
    AcceptedKind(env.fs, key);
    var e := env.fs.definitions[key];
    if !Authorizes(env.fs, env.policy, table, e, Height(env.fs.limits, 1)) {
      return Err(OutputDenied);
    }
    hide Eval, Kind, Check;
    var budget := new Budget(env.fs.limits);
    var failure := budget.Record();
    match failure {
      case Some(x) => return Err(x);
      case None =>
    }
    r := EvaluateExpression(env, found.value, e, 1, budget);
    if r.Ok? && (key !in env.fs.kinds || env.fs.kinds[key] != KindOf(r.value)) {
      return Err(NumericTypeMismatch);
    }
  }

  /** The answer of a known formula on a known row of a store of the right shape. */
  function EvaluateFormula(env: Env, row: RawRecord, key: FormulaKey): Result<Numeric, FormulaError>
    requires key in env.fs.definitions && key in env.fs.kinds && row.table == key.table
    requires Kind(env.fs, key.table, env.fs.definitions[key], Height(env.fs.limits, 1)).Some?
  {
    var e := env.fs.definitions[key];
    if !Authorizes(env.fs, env.policy, key.table, e, Height(env.fs.limits, 1)) then Err(OutputDenied)
    else if 1 > env.fs.limits.maxRecords then Err(RecordBudgetExceeded)
    else
      var r := Eval(env, row, e, 1, Meter(0, 1)).0;
      if r.Ok? && KindOf(r.value) != env.fs.kinds[key] then Err(NumericTypeMismatch) else r
  }

  /** A known formula on a known record: its compiled kind and exact meaning, or one of four failures. */
  lemma FormulaSound(env: Env, spec: Spec, scope: Scope, row: RawRecord, key: FormulaKey)
    requires Accepted(env.fs) && env.fs.shape == ShapeOf(spec) && CheckedRecords(spec, scope, env.rows)
    requires key in env.fs.definitions && row in env.rows && row.table == key.table
    requires Kind(env.fs, key.table, env.fs.definitions[key], Height(env.fs.limits, 1)).Some?
    ensures var h := Height(env.fs.limits, 1);
            Sound(EvaluateFormula(env, row, key), env.fs.kinds[key],
                  Denote(env.fs, env.rows, row, env.fs.definitions[key], h),
                  InRange(env.fs, env.rows, row, env.fs.definitions[key], h))
  {
    hide Eval, Kind, Check, Denote, InRange, Authorizes;
    CheckedServes(env, spec, scope);
    AcceptedKind(env.fs, key);
    EvalSound(env, row, env.fs.definitions[key], 1, Meter(0, 1), 0, {key}, env.fs.kinds[key]);
  }

  /** What a whole evaluation of the formula moves its budget to: the root row, and the cost of the expression. */
  ghost function FormulaCost(env: Env, row: RawRecord, key: FormulaKey): Meter
    requires key in env.fs.definitions
  {
    Plus(Meter(0, 1), Cost(env.fs, env.rows, row, env.fs.definitions[key], Height(env.fs.limits, 1)))
  }

  /**
   With visible records and authorized fields, evaluation succeeds exactly when the arithmetic stays
   within 64 bits and the cost within the budget. Otherwise it overflows, or exhausts the budget, and
   does the latter only when the cost is beyond it.
   */
  lemma FormulaExact(env: Env, spec: Spec, scope: Scope, row: RawRecord, key: FormulaKey)
    requires Accepted(env.fs) && env.fs.shape == ShapeOf(spec) && CheckedRecords(spec, scope, env.rows)
    requires key in env.fs.definitions && row in env.rows && row.table == key.table
    requires Kind(env.fs, key.table, env.fs.definitions[key], Height(env.fs.limits, 1)).Some?
    requires RecordsVisible(env.policy)
    requires Authorizes(env.fs, env.policy, key.table, env.fs.definitions[key], Height(env.fs.limits, 1))
    ensures var r := EvaluateFormula(env, row, key);
            var inRange := InRange(env.fs, env.rows, row, env.fs.definitions[key], Height(env.fs.limits, 1));
            var affordable := Within(FormulaCost(env, row, key), env.fs.limits);
            && (r.Ok? <==> inRange && affordable)
            && (r == Err(Overflow) ==> !inRange)
            && (r.Err? && r.error != Overflow ==> !affordable && (r.error == NodeBudgetExceeded || r.error == RecordBudgetExceeded))
  {
    hide Eval, Kind, Check, Denote, InRange, Authorizes, Cost;
    CheckedServes(env, spec, scope);
    AcceptedKind(env.fs, key);
    EvalSound(env, row, env.fs.definitions[key], 1, Meter(0, 1), 0, {key}, env.fs.kinds[key]);
    Completes(env, row, env.fs.definitions[key], 1, Meter(0, 1), 0, {key}, env.fs.kinds[key]);
  }

  // ------------------------------------------------------------ compilation

  datatype FormulaDefinition = FormulaDefinition(table: TableId, name: string, expression: Expression)

  predicate ValidName(name: string) {
    && name != "" && |name| <= 64
    && forall i :: 0 <= i < |name| ==> ('a' <= name[i] <= 'z' || 'A' <= name[i] <= 'Z' || '0' <= name[i] <= '9' || name[i] == '_')
  }

  function DefinitionKey(d: FormulaDefinition): FormulaKey {
    FormulaKey(d.table, d.name)
  }

  ghost predicate DistinctDefinitions(ds: seq<FormulaDefinition>) {
    forall i, j :: 0 <= i < j < |ds| ==> DefinitionKey(ds[i]) != DefinitionKey(ds[j])
  }

  /** The named expressions, by table and name. */
  function DefinitionMap(ds: seq<FormulaDefinition>): map<FormulaKey, Expression> {
    if ds == [] then map[] else DefinitionMap(ds[..|ds| - 1])[DefinitionKey(ds[|ds| - 1]) := ds[|ds| - 1].expression]
  }

  lemma {:induction false} DefinitionMapKeys(ds: seq<FormulaDefinition>)
    ensures forall k :: k in DefinitionMap(ds) <==> exists i :: 0 <= i < |ds| && DefinitionKey(ds[i]) == k
  {
    if ds != [] {
      var front := ds[..|ds| - 1];
      DefinitionMapKeys(front);
      forall k
        ensures k in DefinitionMap(ds) <==> exists i :: 0 <= i < |ds| && DefinitionKey(ds[i]) == k
      {
        if k in DefinitionMap(front) {
          var i :| 0 <= i < |front| && DefinitionKey(front[i]) == k;
          assert ds[i] == front[i];
        }
        if i :| 0 <= i < |ds| && DefinitionKey(ds[i]) == k {
          assert i == |ds| - 1 || DefinitionKey(front[i]) == k;
        }
      }
    }
  }

  ghost predicate WellNamed(spec: Spec, ds: seq<FormulaDefinition>) {
    && |ds| <= MAX_FORMULAS
    && DistinctDefinitions(ds)
    && forall i :: 0 <= i < |ds| ==> ValidName(ds[i].name) && FindTable(spec.tables, ds[i].table).Some?
  }

  ghost predicate AllCheck(fs: CheckedFormulas) {
    forall k :: k in fs.definitions ==> Check(fs, k.table, fs.definitions[k], 1, 0, {k}).0.Ok?
  }

  /** The walk reads definitions, limits and shape only: recording kinds as it goes does not disturb it. */
  lemma {:induction false} CheckIgnoresKinds(fs: CheckedFormulas, kinds: map<FormulaKey, NumericKind>, table: TableId,
                                             e: Expression, depth: nat, nodes: nat, visiting: set<FormulaKey>)
    ensures Check(fs.(kinds := kinds), table, e, depth, nodes, visiting) == Check(fs, table, e, depth, nodes, visiting)
    decreases Height(fs.limits, depth), 0, 0
  {
    if depth <= fs.limits.maxDepth && nodes + 1 <= fs.limits.maxNodes {
      var n := nodes + 1;
      match e
      case FieldValue(_) =>
      case Lookup(_, _) =>
      case Sum(child, r, v) => CheckIgnoresKinds(fs, kinds, child, v, depth + 1, n, visiting);
      case Product(a, b) =>
        CheckIgnoresKinds(fs, kinds, table, a, depth + 1, n, visiting);
        CheckIgnoresKinds(fs, kinds, table, b, depth + 1, Check(fs, table, a, depth + 1, n, visiting).1, visiting);
      case Total(vs) => CheckAllIgnoresKinds(fs, kinds, table, vs, depth + 1, n, visiting, None);
      case Named(name) =>
        var k := FormulaKey(table, name);
        if k !in visiting && k in fs.definitions {
          CheckIgnoresKinds(fs, kinds, table, fs.definitions[k], depth + 1, n, visiting + {k});
        }
    }
  }

  lemma {:induction false} CheckAllIgnoresKinds(fs: CheckedFormulas, kinds: map<FormulaKey, NumericKind>, table: TableId,
                                                vs: seq<Expression>, depth: nat, nodes: nat, visiting: set<FormulaKey>,
                                                kind: Option<NumericKind>)
    ensures CheckAll(fs.(kinds := kinds), table, vs, depth, nodes, visiting, kind)
            == CheckAll(fs, table, vs, depth, nodes, visiting, kind)
    decreases Height(fs.limits, depth), 1, |vs|
  {
    if vs != [] {
      CheckIgnoresKinds(fs, kinds, table, vs[0], depth, nodes, visiting);
      var head := Check(fs, table, vs[0], depth, nodes, visiting);
      if head.0.Ok? {
        CheckAllIgnoresKinds(fs, kinds, table, vs[1..], depth, head.1, visiting, Some(head.0.value));
      }
    }
  }

  method CollectDefinitions(spec: Spec, ds: seq<FormulaDefinition>)
    returns (r: Result<map<FormulaKey, Expression>, FormulaError>)
    ensures r.Ok? <==> WellNamed(spec, ds)
    ensures r.Ok? ==> r.value == DefinitionMap(ds)
  {
    if |ds| > MAX_FORMULAS {
      return Err(FormulaLimit);
    }
    var definitions: map<FormulaKey, Expression> := map[];
    var i := 0;
    while i < |ds|
      invariant 0 <= i <= |ds|
      invariant definitions == DefinitionMap(ds[..i])
      invariant WellNamed(spec, ds[..i])
    {
      hide ValidName;
      assert ds[..i + 1][..i] == ds[..i];
      DefinitionMapKeys(ds[..i]);
      var d := ds[i];
      assert ds[..i + 1][i] == d;
      if !ValidName(d.name) {
        return Err(InvalidFormulaName);
      }
      if FindTable(spec.tables, d.table).None? {
        return Err(UnknownTable);
      }
      var key := DefinitionKey(d);
      if key in definitions {
        assert exists j :: 0 <= j < i && DefinitionKey(ds[..i][j]) == key;
        return Err(DuplicateFormula);
      }
      assert forall j :: 0 <= j < i ==> DefinitionKey(ds[..i][j]) != key;
      definitions := definitions[key := d.expression];
      i := i + 1;
    }
    assert ds[..i] == ds;
    r := Ok(definitions);
  }

  /** The kinds recorded so far are those of the formulas already checked. */
  ghost predicate KindsSoFar(raw: CheckedFormulas, kinds: map<FormulaKey, NumericKind>) {
    && kinds.Keys <= raw.definitions.Keys
    && forall k :: k in kinds ==> Check(raw, k.table, raw.definitions[k], 1, 0, {k}).0 == Ok(kinds[k])
  }

  /** `compile`: distinct, well-named definitions on known tables, each of which checks from the top. */
  method Compile(spec: Spec, ds: seq<FormulaDefinition>, limits: Limits) returns (r: Result<CheckedFormulas, FormulaError>)
    ensures var raw := CheckedFormulas(DefinitionMap(ds), map[], limits, ShapeOf(spec));
            && (r.Ok? <==> ValidLimits(limits) && WellNamed(spec, ds) && AllCheck(raw))
            && (r.Ok? ==> Accepted(r.value) && r.value == raw.(kinds := r.value.kinds))
  {
    hide Check, DefinitionMap, WellNamed, ShapeOf;
    if !ValidLimits(limits) {
      return Err(InvalidLimits);
    }
    var collected := CollectDefinitions(spec, ds);
    if collected.Err? {
      return Err(collected.error);
    }
    var definitions := collected.value;
    var formulas := CheckedFormulas(definitions, map[], limits, ShapeOf(spec));
    ghost var raw := formulas;
    var left := definitions.Keys;
    while left != {}
      invariant left <= definitions.Keys
      invariant formulas == raw.(kinds := formulas.kinds)
      invariant formulas.kinds.Keys == definitions.Keys - left
      invariant KindsSoFar(raw, formulas.kinds)
      decreases |left|
    {
      var key :| key in left;
      var kind := CheckFormula(raw, formulas, key);
      if kind.Err? {
        return Err(kind.error);
      }
      formulas := formulas.(kinds := formulas.kinds[key := kind.value]);
      left := left - {key};
    }
    forall k | k in definitions
      ensures Check(formulas, k.table, definitions[k], 1, 0, {k}).0 == Ok(formulas.kinds[k])
    {
      CheckIgnoresKinds(raw, formulas.kinds, k.table, definitions[k], 1, 0, {k});
    }
    r := Ok(formulas);
  }

  method CheckFormula(ghost raw: CheckedFormulas, formulas: CheckedFormulas, key: FormulaKey)
    returns (kind: Result<NumericKind, FormulaError>)
    requires formulas == raw.(kinds := formulas.kinds) && key in raw.definitions
    ensures kind == Check(raw, key.table, raw.definitions[key], 1, 0, {key}).0
  {
    hide Check;
    var budget := new Budget(formulas.limits);
    var visiting := new Visiting({key});
    kind := CheckExpression(formulas, key.table, formulas.definitions[key], 1, budget, visiting);
    CheckIgnoresKinds(raw, formulas.kinds, key.table, formulas.definitions[key], 1, 0, {key});
  }
}
