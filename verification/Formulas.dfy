/**
 Pure numeric projections over checked facts: a small expression language with named reuse, lookups
 and roll-up sums, a budgeted static checker, and a budgeted evaluator over signed 64-bit integers.

 The functions here say what each operation answers and how far it moves the budget;
 FormulaEngine runs the same operations against a mutable budget.
 */
module Formulas {
  import opened Wrappers
  import opened Sorting
  import opened AppSpec
  import opened Records

  const MAX_FORMULAS := 64

  datatype NumericKind = IntegerKind | MoneyKind

  datatype Numeric =
    | IntegerNumber(value: i64)
    | MoneyNumber(value: i64)
    | NullNumber(nullKind: NumericKind)

  function KindOf(n: Numeric): NumericKind {
    match n
    case IntegerNumber(_) => IntegerKind
    case MoneyNumber(_) => MoneyKind
    case NullNumber(k) => k
  }

  function NumberOf(n: Numeric): Option<int> {
    match n
    case IntegerNumber(v) => Some(v)
    case MoneyNumber(v) => Some(v)
    case NullNumber(_) => None
  }

  function OrZero(n: Option<int>): int {
    match n
    case None => 0
    case Some(v) => v
  }

  function FromNumber(k: NumericKind, v: i64): Numeric {
    match k
    case IntegerKind => IntegerNumber(v)
    case MoneyKind => MoneyNumber(v)
  }

  datatype Expression =
    | FieldValue(field: FieldId)
    | Lookup(refField: FieldId, targetField: FieldId)
    | Sum(childTable: TableId, childRef: FieldId, value: Expression)
    | Product(left: Expression, right: Expression)
    | Total(values: seq<Expression>)
    | Named(name: string)

  datatype FormulaKey = FormulaKey(table: TableId, name: string)

  datatype FormulaError =
    | OutputDenied
    | InvalidLimits
    | FormulaLimit
    | InvalidFormulaName
    | DuplicateFormula
    | MissingFormula
    | FormulaCycle
    | UnknownTable
    | UnknownField
    | NumericFieldRequired
    | ReferenceFieldRequired
    | ReferenceTargetMismatch
    | NumericTypeMismatch
    | MoneyProductUnsupported
    | EmptyTotal
    | DepthExceeded
    | NodeBudgetExceeded
    | RecordBudgetExceeded
    | DefinitionMismatch
    | MissingRecord
    | Overflow

  datatype Limits = Limits(maxNodes: nat, maxDepth: nat, maxRecords: nat)

  predicate ValidLimits(l: Limits) {
    0 < l.maxNodes <= 16_384 && 0 < l.maxDepth <= 64 && 0 < l.maxRecords <= 10_000
  }

  /** The part of a definition that formulas depend on; labels and row rules are not in it. */
  datatype Shape = Shape(
    app: int, tables: set<TableId>, fields: map<Key, (FieldType, bool)>, captures: seq<CaptureRule>)

  function FieldKeys(spec: Spec): set<Key> {
    set i, j | 0 <= i < |spec.tables| && 0 <= j < |spec.tables[i].fields| ::
      Key(spec.tables[i].id, spec.tables[i].fields[j].id)
  }

  function ShapeOf(spec: Spec): Shape {
    Shape(spec.app,
          set i | 0 <= i < |spec.tables| :: spec.tables[i].id,
          map k | k in FieldKeys(spec) && FieldOf(spec, k.table, k.id).Some? ::
            (FieldOf(spec, k.table, k.id).value.fieldType, FieldOf(spec, k.table, k.id).value.required),
          spec.captures)
  }

  datatype CheckedFormulas = CheckedFormulas(
    definitions: map<FormulaKey, Expression>, kinds: map<FormulaKey, NumericKind>, limits: Limits, shape: Shape)

  function RefTarget(shape: Shape, table: TableId, field: FieldId): Result<TableId, FormulaError> {
    var k := Key(table, field);
    if k !in shape.fields then Err(UnknownField)
    else if shape.fields[k].0.RefType? then Ok(shape.fields[k].0.target)
    else Err(ReferenceFieldRequired)
  }

  function FieldKind(shape: Shape, table: TableId, field: FieldId): Result<NumericKind, FormulaError> {
    var k := Key(table, field);
    if k !in shape.fields then Err(UnknownField)
    else match shape.fields[k].0
      case IntegerType => Ok(IntegerKind)
      case MoneyType => Ok(MoneyKind)
      case _ => Err(NumericFieldRequired)
  }

  function LookupKind(shape: Shape, table: TableId, refField: FieldId, targetField: FieldId)
    : Result<NumericKind, FormulaError>
  {
    match RefTarget(shape, table, refField)
    case Err(e) => Err(e)
    case Ok(target) => FieldKind(shape, target, targetField)
  }

  function ProductKind(a: NumericKind, b: NumericKind): Result<NumericKind, FormulaError> {
    match (a, b)
    case (MoneyKind, MoneyKind) => Err(MoneyProductUnsupported)
    case (IntegerKind, IntegerKind) => Ok(IntegerKind)
    case _ => Ok(MoneyKind)
  }

  function ValueNumber(v: Value, k: NumericKind): Result<Numeric, FormulaError> {
    if Missing(v) then Ok(NullNumber(k))
    else match (v, k)
      case (Integer(n), IntegerKind) => Ok(IntegerNumber(n))
      case (Money(n), MoneyKind) => Ok(MoneyNumber(n))
      case _ => Err(NumericTypeMismatch)
  }

  // ------------------------------------------------------------ budget

  datatype Meter = Meter(nodes: nat, records: nat)

  /** Enter one expression node: the depth limit first, then the node budget. */
  function ChargeNode(l: Limits, depth: nat, nodes: nat): (Option<FormulaError>, nat) {
    if depth > l.maxDepth then (Some(DepthExceeded), nodes)
    else if nodes + 1 > l.maxNodes then (Some(NodeBudgetExceeded), nodes + 1)
    else (None, nodes + 1)
  }

  function ChargeRecord(l: Limits, records: nat): (Option<FormulaError>, nat) {
    if records + 1 > l.maxRecords then (Some(RecordBudgetExceeded), records + 1)
    else (None, records + 1)
  }

  /** Levels left below `depth`, the bound on every unfolding that compilation certifies. */
  function Height(l: Limits, depth: nat): nat {
    if depth <= l.maxDepth then l.maxDepth + 1 - depth else 0
  }

  // ------------------------------------------------------------ static check

  /** `check_expression`: the kind of `e`, and the node counter after the attempt. */
  function Check(fs: CheckedFormulas, table: TableId, e: Expression, depth: nat, nodes: nat, visiting: set<FormulaKey>)
    : (r: (Result<NumericKind, FormulaError>, nat))
    decreases Height(fs.limits, depth), 0, 0
  {
    var charge := ChargeNode(fs.limits, depth, nodes);
    var n := charge.1;
    if charge.0.Some? then (Err(charge.0.value), n)
    else match e
      case FieldValue(f) => (FieldKind(fs.shape, table, f), n)
      case Lookup(r, f) => (LookupKind(fs.shape, table, r, f), n)
      case Sum(child, r, v) =>
        (match RefTarget(fs.shape, child, r)
         case Err(x) => (Err(x), n)
         case Ok(target) =>
           if target != table then (Err(ReferenceTargetMismatch), n)
           else Check(fs, child, v, depth + 1, n, visiting))
      case Product(a, b) =>
        var left := Check(fs, table, a, depth + 1, n, visiting);
        if left.0.Err? then left
        else
          var right := Check(fs, table, b, depth + 1, left.1, visiting);
          if right.0.Err? then right
          else (ProductKind(left.0.value, right.0.value), right.1)
      case Total(vs) => CheckAll(fs, table, vs, depth + 1, n, visiting, None)
      case Named(name) =>
        var k := FormulaKey(table, name);
        if k in visiting then (Err(FormulaCycle), n)
        else if k !in fs.definitions then (Err(MissingFormula), n)
        else Check(fs, table, fs.definitions[k], depth + 1, n, visiting + {k})
  }

  function CheckAll(fs: CheckedFormulas, table: TableId, vs: seq<Expression>, depth: nat, nodes: nat,
                    visiting: set<FormulaKey>, kind: Option<NumericKind>)
    : (Result<NumericKind, FormulaError>, nat)
    decreases Height(fs.limits, depth), 1, |vs|
  {
    if vs == [] then
      (if kind.None? then Err(EmptyTotal) else Ok(kind.value), nodes)
    else
      var head := Check(fs, table, vs[0], depth, nodes, visiting);
      if head.0.Err? then head
      else if kind.Some? && kind.value != head.0.value then (Err(NumericTypeMismatch), head.1)
      else CheckAll(fs, table, vs[1..], depth, head.1, visiting, Some(head.0.value))
  }

  /** The kind of `e` unfolded through named formulas to at most `h` levels, if it has one. */
  function Kind(fs: CheckedFormulas, table: TableId, e: Expression, h: nat): Option<NumericKind>
    decreases h
  {
    if h == 0 then None
    else match e
      case FieldValue(f) => OkOnly(FieldKind(fs.shape, table, f))
      case Lookup(r, f) => OkOnly(LookupKind(fs.shape, table, r, f))
      case Sum(child, r, v) =>
        if RefTarget(fs.shape, child, r) == Ok(table) then Kind(fs, child, v, h - 1) else None
      case Product(a, b) =>
        var left, right := Kind(fs, table, a, h - 1), Kind(fs, table, b, h - 1);
        if left.Some? && right.Some? then OkOnly(ProductKind(left.value, right.value)) else None
      case Total(vs) =>
        if vs != [] && (forall i :: 0 <= i < |vs| ==> Kind(fs, table, vs[i], h - 1) == Kind(fs, table, vs[0], h - 1))
        then Kind(fs, table, vs[0], h - 1)
        else None
      case Named(name) =>
        var k := FormulaKey(table, name);
        if k in fs.definitions then Kind(fs, table, fs.definitions[k], h - 1) else None
  }

  function OkOnly<T, E>(r: Result<T, E>): Option<T> {
    match r
    case Ok(v) => Some(v)
    case Err(_) => None
  }

  // ------------------------------------------------------------ output policy

  /** One coherent answer of the host's output policy. Missing authority denies. */
  datatype OutputPolicy = OutputPolicy(
    snapshot: bool, record: Key -> bool, field: Key -> bool, scan: (TableId, set<FieldId>) -> bool)

  ghost predicate AllowsEverything(p: OutputPolicy) {
    && p.snapshot
    && (forall k :: p.record(k))
    && (forall k :: p.field(k))
    && (forall t, fs :: p.scan(t, fs))
  }

  predicate AllowsField(p: OutputPolicy, row: RawRecord, field: FieldId) {
    p.record(RecordKey(row)) && p.field(Key(row.table, field))
  }

  predicate AllowsScan(p: OutputPolicy, table: TableId, fields: set<FieldId>) {
    p.scan(table, fields) && forall f :: f in fields ==> p.field(Key(table, f))
  }

  // ------------------------------------------------------------ dependencies

  /** Fields of `table` that `e` reads on a row of `table`. The height certified by the checker bounds the walk. */
  function CollectFields(fs: CheckedFormulas, table: TableId, e: Expression, ghost h: nat): set<FieldId>
    requires Kind(fs, table, e, h).Some?
    decreases h, 0, 0
  {
    match e
    case FieldValue(f) => {f}
    case Lookup(r, _) => {r}
    case Sum(_, _, _) => {}
    case Product(a, b) => CollectFields(fs, table, a, h - 1) + CollectFields(fs, table, b, h - 1)
    case Total(vs) => CollectAll(fs, table, vs, h - 1)
    case Named(name) => CollectFields(fs, table, fs.definitions[FormulaKey(table, name)], h - 1)
  }

  function CollectAll(fs: CheckedFormulas, table: TableId, vs: seq<Expression>, ghost h: nat): set<FieldId>
    requires forall i :: 0 <= i < |vs| ==> Kind(fs, table, vs[i], h).Some?
    decreases h, 1, |vs|
  {
    if vs == [] then {} else CollectFields(fs, table, vs[0], h) + CollectAll(fs, table, vs[1..], h)
  }

  /** `authorize_expression`: every field and scan an evaluation may touch is allowed. */
  function Authorizes(fs: CheckedFormulas, p: OutputPolicy, table: TableId, e: Expression, ghost h: nat): bool
    requires Kind(fs, table, e, h).Some?
    decreases h, 0, 0
  {
    match e
    case FieldValue(f) => p.field(Key(table, f))
    case Lookup(r, f) => p.field(Key(table, r)) && p.field(Key(RefTarget(fs.shape, table, r).value, f))
    case Sum(child, r, v) =>
      AllowsScan(p, child, {r} + CollectFields(fs, child, v, h - 1)) && Authorizes(fs, p, child, v, h - 1)
    case Product(a, b) => Authorizes(fs, p, table, a, h - 1) && Authorizes(fs, p, table, b, h - 1)
    case Total(vs) => AuthorizesAll(fs, p, table, vs, h - 1)
    case Named(name) => Authorizes(fs, p, table, fs.definitions[FormulaKey(table, name)], h - 1)
  }

  function AuthorizesAll(fs: CheckedFormulas, p: OutputPolicy, table: TableId, vs: seq<Expression>, ghost h: nat): bool
    requires forall i :: 0 <= i < |vs| ==> Kind(fs, table, vs[i], h).Some?
    decreases h, 1, |vs|
  {
    vs == [] || (Authorizes(fs, p, table, vs[0], h) && AuthorizesAll(fs, p, table, vs[1..], h))
  }

  // ------------------------------------------------------------ evaluation

  datatype Env = Env(fs: CheckedFormulas, rows: seq<RawRecord>, policy: OutputPolicy)

  /** `lookup`: follow one reference and read one field of its target. */
  function LookupValue(env: Env, key: Key, refField: FieldId, targetField: FieldId): Result<Value, FormulaError> {
    if !env.policy.snapshot || !env.policy.record(key) then Err(OutputDenied)
    else match FindRow(env.rows, key)
      case None => Err(MissingRecord)
      case Some(row) =>
        if !AllowsField(env.policy, row, refField) then Err(OutputDenied)
        else match RefTarget(env.fs.shape, key.table, refField)
          case Err(x) => Err(x)
          case Ok(target) =>
            if Key(target, targetField) !in env.fs.shape.fields then Err(UnknownField)
            else if !env.policy.field(Key(target, targetField)) then Err(OutputDenied)
            else match Get(row.values, refField)
              case Ref(r) =>
                if !env.policy.record(Key(r.table, r.record)) then Err(OutputDenied)
                else (match FindRow(env.rows, Key(r.table, r.record))
                      case None => Err(MissingRecord)
                      case Some(t) =>
                        if !AllowsField(env.policy, t, targetField) then Err(OutputDenied)
                        else Ok(if targetField in t.values then t.values[targetField] else Null))
              case _ => Ok(Null)
  }

  predicate PointsAt(child: RawRecord, refField: FieldId, row: RawRecord) {
    match Get(child.values, refField)
    case Ref(r) => r.table == row.table && r.record == row.id
    case _ => false
  }

  /** `evaluate_expression`: the answer, and the budget after the attempt. */
  function Eval(env: Env, row: RawRecord, e: Expression, depth: nat, m: Meter): (Result<Numeric, FormulaError>, Meter)
    requires Kind(env.fs, row.table, e, Height(env.fs.limits, depth)).Some?
    decreases Height(env.fs.limits, depth), 0, 0
  {
    var fs := env.fs;
    var charge := ChargeNode(fs.limits, depth, m.nodes);
    var m1 := m.(nodes := charge.1);
    if charge.0.Some? then (Err(charge.0.value), m1)
    else match e
      case FieldValue(f) =>
        if !AllowsField(env.policy, row, f) then (Err(OutputDenied), m1)
        else (match FieldKind(fs.shape, row.table, f)
              case Err(x) => (Err(x), m1)
              case Ok(k) => (ValueNumber(Get(row.values, f), k), m1))
      case Lookup(r, f) => EvalLookup(env, row, r, f, m1)
      case Sum(child, r, v) =>
        (match RefTarget(fs.shape, child, r)
         case Err(x) => (Err(x), m1)
         case Ok(target) =>
           if target != row.table then (Err(ReferenceTargetMismatch), m1)
           else if !AllowsScan(env.policy, child, {r} + CollectFields(fs, child, v, Height(fs.limits, depth + 1)))
           then (Err(OutputDenied), m1)
           else EvalSum(env, row, child, r, v, depth + 1, m1))
      case Product(a, b) =>
        var left := Eval(env, row, a, depth + 1, m1);
        if left.0.Err? then left
        else
          var right := Eval(env, row, b, depth + 1, left.1);
          if right.0.Err? then right
          else (MultiplyNumbers(left.0.value, right.0.value), right.1)
      case Total(vs) => EvalTotal(env, row, vs, depth + 1, None, 0, m1)
      case Named(name) => Eval(env, row, fs.definitions[FormulaKey(row.table, name)], depth + 1, m1)
  }

  function EvalLookup(env: Env, row: RawRecord, r: FieldId, f: FieldId, m: Meter): (Result<Numeric, FormulaError>, Meter) {
    match RefTarget(env.fs.shape, row.table, r)
    case Err(x) => (Err(x), m)
    case Ok(target) =>
      var charge := if Get(row.values, r).Ref? then ChargeRecord(env.fs.limits, m.records) else (None, m.records);
      var m1 := m.(records := charge.1);
      if charge.0.Some? then (Err(charge.0.value), m1)
      else match FieldKind(env.fs.shape, target, f)
        case Err(x) => (Err(x), m1)
        case Ok(k) =>
          match LookupValue(env, RecordKey(row), r, f)
          case Err(x) => (Err(x), m1)
          case Ok(v) => (ValueNumber(v, k), m1)
  }

  /** A roll-up; the kind of an empty sum is found by checking the summand again, from depth one. */
  function EvalSum(env: Env, row: RawRecord, child: TableId, r: FieldId, v: Expression, depth: nat, m: Meter)
    : (Result<Numeric, FormulaError>, Meter)
    requires Kind(env.fs, child, v, Height(env.fs.limits, depth)).Some?
    decreases Height(env.fs.limits, depth), 2, 0
  {
    match Check(env.fs, child, v, 1, 0, {}).0
    case Err(x) => (Err(x), m)
    case Ok(k) =>
      var s := EvalChildren(env, row, child, r, v, depth, env.rows, 0, m);
      match s.0
      case Err(x) => (Err(x), s.1)
      case Ok(sum) => (Ok(FromNumber(k, sum)), s.1)
  }

  function MultiplyNumbers(a: Numeric, b: Numeric): Result<Numeric, FormulaError> {
    match ProductKind(KindOf(a), KindOf(b))
    case Err(x) => Err(x)
    case Ok(k) =>
      match (NumberOf(a), NumberOf(b))
      case (Some(x), Some(y)) => if InI64(x * y) then Ok(FromNumber(k, x * y)) else Err(Overflow)
      case _ => Ok(NullNumber(k))
  }

  /** The loop of a roll-up over the remaining rows, in canonical order. */
  function EvalChildren(env: Env, row: RawRecord, child: TableId, r: FieldId, v: Expression, depth: nat,
                        rows: seq<RawRecord>, sum: i64, m: Meter)
    : (Result<i64, FormulaError>, Meter)
    requires Kind(env.fs, child, v, Height(env.fs.limits, depth)).Some?
    decreases Height(env.fs.limits, depth), 1, |rows|
  {
    if rows == [] then (Ok(sum), m)
    else if rows[0].table != child then EvalChildren(env, row, child, r, v, depth, rows[1..], sum, m)
    else if !AllowsField(env.policy, rows[0], r) then (Err(OutputDenied), m)
    else
      var charge := ChargeRecord(env.fs.limits, m.records);
      var m1 := m.(records := charge.1);
      if charge.0.Some? then (Err(charge.0.value), m1)
      else if !PointsAt(rows[0], r, row) then EvalChildren(env, row, child, r, v, depth, rows[1..], sum, m1)
      else
        var one := Eval(env, rows[0], v, depth, m1);
        if one.0.Err? then (Err(one.0.error), one.1)
        else
          var next := sum + OrZero(NumberOf(one.0.value));
          if !InI64(next) then (Err(Overflow), one.1)
          else EvalChildren(env, row, child, r, v, depth, rows[1..], next, one.1)
  }

  function EvalTotal(env: Env, row: RawRecord, vs: seq<Expression>, depth: nat, kind: Option<NumericKind>, sum: i64, m: Meter)
    : (Result<Numeric, FormulaError>, Meter)
    requires forall i :: 0 <= i < |vs| ==> Kind(env.fs, row.table, vs[i], Height(env.fs.limits, depth)).Some?
    decreases Height(env.fs.limits, depth), 1, |vs|
  {
    if vs == [] then
      (if kind.None? then Err(EmptyTotal) else Ok(FromNumber(kind.value, sum)), m)
    else
      var one := Eval(env, row, vs[0], depth, m);
      if one.0.Err? then one
      else if kind.Some? && kind.value != KindOf(one.0.value) then (Err(NumericTypeMismatch), one.1)
      else
        var next := sum + OrZero(NumberOf(one.0.value));
        if !InI64(next) then (Err(Overflow), one.1)
        else EvalTotal(env, row, vs[1..], depth, Some(KindOf(one.0.value)), next, one.1)
  }

  // ------------------------------------------------------------ accepted formula sets

  /** What `compile` establishes of every definition it keeps. */
  ghost predicate Accepted(fs: CheckedFormulas) {
    && ValidLimits(fs.limits)
    && fs.kinds.Keys == fs.definitions.Keys
    && forall k :: k in fs.definitions ==> Check(fs, k.table, fs.definitions[k], 1, 0, {k}).0 == Ok(fs.kinds[k])
  }
}
