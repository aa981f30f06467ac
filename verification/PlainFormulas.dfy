/**
 Formulas in plain terms: which kind an unfolding has, how large it is, what it means, and which
 fields, scans and records it touches. Each is said of the unfolding alone, with none of the helpers
 of the checker or the evaluator, and the operations answer exactly by them.
 */
module PlainFormulas {
  import opened Wrappers
  import opened Sorting
  import opened AppSpec
  import opened Records
  import opened Formulas
  import opened FormulaProofs
  import opened FormulaCosts
  import opened FormulaEngine
  import opened PlainFacts

  // ------------------------------------------------------------ typing

  /** Field `f` of `table` is a number of kind `k`. */
  predicate Numbers(shape: Shape, table: TableId, f: FieldId, k: NumericKind) {
    && Key(table, f) in shape.fields
    && var t := shape.fields[Key(table, f)].0;
       (t == IntegerType && k == IntegerKind) || (t == MoneyType && k == MoneyKind)
  }

  /** Field `f` of `table` refers to rows of `target`. */
  predicate Refers(shape: Shape, table: TableId, f: FieldId, target: TableId) {
    Key(table, f) in shape.fields && shape.fields[Key(table, f)].0 == RefType(target)
  }

  /** `e` on rows of `table`, unfolded through named formulas, is a number of kind `k` within `h` levels. */
  ghost predicate Typed(fs: CheckedFormulas, table: TableId, e: Expression, k: NumericKind, h: nat)
    decreases h
  {
    && h > 0
    && match e
       case FieldValue(f) => Numbers(fs.shape, table, f, k)
       case Lookup(r, f) => exists target :: Refers(fs.shape, table, r, target) && Numbers(fs.shape, target, f, k)
       case Sum(child, r, v) => Refers(fs.shape, child, r, table) && Typed(fs, child, v, k, h - 1)
       case Product(a, b) =>
         if k == IntegerKind then Typed(fs, table, a, IntegerKind, h - 1) && Typed(fs, table, b, IntegerKind, h - 1)
         else || (Typed(fs, table, a, MoneyKind, h - 1) && Typed(fs, table, b, IntegerKind, h - 1))
              || (Typed(fs, table, a, IntegerKind, h - 1) && Typed(fs, table, b, MoneyKind, h - 1))
       case Total(vs) => vs != [] && forall i :: 0 <= i < |vs| ==> Typed(fs, table, vs[i], k, h - 1)
       case Named(name) => FormulaKey(table, name) in fs.definitions && Typed(fs, table, fs.definitions[FormulaKey(table, name)], k, h - 1)
  }

  lemma FieldKindMeans(shape: Shape, table: TableId, f: FieldId, k: NumericKind)
    ensures OkOnly(FieldKind(shape, table, f)) == Some(k) <==> Numbers(shape, table, f, k)
  {
  }

  lemma TargetMeans(shape: Shape, table: TableId, f: FieldId, target: TableId)
    ensures RefTarget(shape, table, f) == Ok(target) <==> Refers(shape, table, f, target)
  {
  }

  lemma LookupKindMeans(shape: Shape, table: TableId, r: FieldId, f: FieldId, k: NumericKind)
    ensures OkOnly(LookupKind(shape, table, r, f)) == Some(k) <==> exists target :: Refers(shape, table, r, target) && Numbers(shape, target, f, k)
  {
    if RefTarget(shape, table, r).Ok? {
      var target := RefTarget(shape, table, r).value;
      TargetMeans(shape, table, r, target);
      FieldKindMeans(shape, target, f, k);
    }
    if exists target :: Refers(shape, table, r, target) && Numbers(shape, target, f, k) {
      var target :| Refers(shape, table, r, target) && Numbers(shape, target, f, k);
      FieldKindMeans(shape, target, f, k);
    }
  }

  /** The kind that an unfolding is given is the one it is typed with. */
  lemma {:induction false} KindMeans(fs: CheckedFormulas, table: TableId, e: Expression, k: NumericKind, h: nat)
    ensures Kind(fs, table, e, h) == Some(k) <==> Typed(fs, table, e, k, h)
    decreases h
  {
    hide FieldKind, LookupKind, RefTarget, Numbers, Refers;
    if h > 0 {
      match e
      case FieldValue(f) => FieldKindMeans(fs.shape, table, f, k);
      case Lookup(r, f) => LookupKindMeans(fs.shape, table, r, f, k);
      case Sum(child, r, v) =>
        TargetMeans(fs.shape, child, r, table);
        KindMeans(fs, child, v, k, h - 1);
      case Product(a, b) =>
        KindMeans(fs, table, a, IntegerKind, h - 1);
        KindMeans(fs, table, a, MoneyKind, h - 1);
        KindMeans(fs, table, b, IntegerKind, h - 1);
        KindMeans(fs, table, b, MoneyKind, h - 1);
      case Total(vs) =>
        forall i | 0 <= i < |vs|
          ensures Kind(fs, table, vs[i], h - 1) == Some(k) <==> Typed(fs, table, vs[i], k, h - 1)
        {
          KindMeans(fs, table, vs[i], k, h - 1);
        }
      case Named(name) =>
        if FormulaKey(table, name) in fs.definitions {
          KindMeans(fs, table, fs.definitions[FormulaKey(table, name)], k, h - 1);
        }
    }
  }

  /** The shape that formulas see is what the definition declares. */
  lemma ShapeMeans(spec: Spec, table: TableId, f: FieldId, t: FieldType, required: bool)
    requires Checked(spec)
    ensures Key(table, f) in ShapeOf(spec).fields && ShapeOf(spec).fields[Key(table, f)] == (t, required)
            <==> Declares(spec, table, Field(f, required, t))
  {
    hide Checked;
    var field := Field(f, required, t);
    FieldFound(spec, table, field);
    if Declares(spec, table, field) {
      var u :| u in spec.tables && u.id == table && field in u.fields;
      var i :| 0 <= i < |spec.tables| && spec.tables[i] == u;
      var j :| 0 <= j < |u.fields| && u.fields[j] == field;
      assert Key(spec.tables[i].id, spec.tables[i].fields[j].id) == Key(table, f);
    }
    if Key(table, f) in ShapeOf(spec).fields {
      FieldIdOf(spec, table, f);
    }
  }

  lemma FieldIdOf(spec: Spec, table: TableId, f: FieldId)
    ensures FieldOf(spec, table, f).Some? ==> FieldOf(spec, table, f).value.id == f
  {
  }

  // ------------------------------------------------------------ size

  /** Nodes of the unfolding. */
  ghost function Size(fs: CheckedFormulas, table: TableId, e: Expression, h: nat): nat
    decreases h, 0, 0
  {
    if h == 0 then 1
    else match e
      case FieldValue(_) => 1
      case Lookup(_, _) => 1
      case Sum(child, _, v) => 1 + Size(fs, child, v, h - 1)
      case Product(a, b) => 1 + Size(fs, table, a, h - 1) + Size(fs, table, b, h - 1)
      case Total(vs) => 1 + Sizes(fs, table, vs, h - 1)
      case Named(name) =>
        1 + if FormulaKey(table, name) in fs.definitions then Size(fs, table, fs.definitions[FormulaKey(table, name)], h - 1) else 0
  }

  ghost function Sizes(fs: CheckedFormulas, table: TableId, vs: seq<Expression>, h: nat): nat
    decreases h, 1, |vs|
  {
    if vs == [] then 0 else Size(fs, table, vs[0], h) + Sizes(fs, table, vs[1..], h)
  }

  /** An unfolding that ends cannot come back to a formula whose own unfolding does not end as early. */
  ghost predicate Clear(fs: CheckedFormulas, visiting: set<FormulaKey>, h: nat) {
    forall k :: k in visiting && k in fs.definitions && h > 0 ==> Kind(fs, k.table, fs.definitions[k], h - 1).None?
  }

  lemma ClearLower(fs: CheckedFormulas, visiting: set<FormulaKey>, h: nat, lower: nat)
    requires Clear(fs, visiting, h) && lower <= h
    ensures Clear(fs, visiting, lower)
  {
    hide Kind;
    forall k | k in visiting && k in fs.definitions && lower > 0
      ensures Kind(fs, k.table, fs.definitions[k], lower - 1).None?
    {
      if Kind(fs, k.table, fs.definitions[k], lower - 1).Some? {
        KindMonotone(fs, k.table, fs.definitions[k], lower - 1, h - 1);
      }
    }
  }

  /** The least height at which an expression has its kind. */
  lemma {:induction false} LeastHeight(fs: CheckedFormulas, table: TableId, e: Expression, h: nat) returns (g: nat)
    requires Kind(fs, table, e, h).Some?
    ensures 0 < g <= h && Kind(fs, table, e, g) == Kind(fs, table, e, h) && Kind(fs, table, e, g - 1).None?
    decreases h
  {
    hide Kind;
    KindPositive(fs, table, e, h);
    if Kind(fs, table, e, h - 1).Some? {
      g := LeastHeight(fs, table, e, h - 1);
      KindMonotone(fs, table, e, g, h);
    } else {
      g := h;
    }
  }

  lemma KindPositive(fs: CheckedFormulas, table: TableId, e: Expression, h: nat)
    requires Kind(fs, table, e, h).Some?
    ensures h > 0
  {
  }

  ghost predicate Checks(fs: CheckedFormulas, table: TableId, e: Expression, depth: nat, nodes: nat, visiting: set<FormulaKey>, k: NumericKind, size: nat) {
    var r := Check(fs, table, e, depth, nodes, visiting);
    if nodes + size <= fs.limits.maxNodes then r == (Ok(k), nodes + size) else r.0 == Err(NodeBudgetExceeded)
  }

  ghost predicate ChecksAll(fs: CheckedFormulas, table: TableId, vs: seq<Expression>, depth: nat, nodes: nat, visiting: set<FormulaKey>, kind: Option<NumericKind>, k: NumericKind, size: nat) {
    var r := CheckAll(fs, table, vs, depth, nodes, visiting, kind);
    if nodes + size <= fs.limits.maxNodes then r == (Ok(k), nodes + size) else r.0 == Err(NodeBudgetExceeded)
  }

  /** A typed unfolding checks, unless it is too large. */
  lemma {:induction false} TypedChecks(fs: CheckedFormulas, table: TableId, e: Expression, depth: nat, nodes: nat, visiting: set<FormulaKey>, g: nat, k: NumericKind)
    requires Kind(fs, table, e, g) == Some(k) && g <= Height(fs.limits, depth) && Clear(fs, visiting, g)
    ensures Checks(fs, table, e, depth, nodes, visiting, k, Size(fs, table, e, g))
    decreases g, 1, 0
  {
    hide Clear, FieldKind, LookupKind, RefTarget;
    var n := nodes + 1;
    if n <= fs.limits.maxNodes {
      ClearLower(fs, visiting, g, g - 1);
      match e
      case FieldValue(_) =>
      case Lookup(_, _) =>
      case Sum(child, r, v) => TypedChecks(fs, child, v, depth + 1, n, visiting, g - 1, k);
      case Product(a, b) => FactorsTypedCheck(fs, table, a, b, depth, n, visiting, g, k);
      case Total(vs) => AllTypedCheck(fs, table, vs, depth + 1, n, visiting, g - 1, None, k);
      case Named(name) => NamedTypedChecks(fs, table, name, depth, n, visiting, g, k);
    }
  }

  lemma {:induction false} FactorsTypedCheck(fs: CheckedFormulas, table: TableId, a: Expression, b: Expression, depth: nat, n: nat, visiting: set<FormulaKey>, g: nat, k: NumericKind)
    requires Kind(fs, table, Product(a, b), g) == Some(k) && g <= Height(fs.limits, depth) && Clear(fs, visiting, g)
    ensures Kind(fs, table, a, g - 1).Some? && Kind(fs, table, b, g - 1).Some?
    ensures ProductKind(Kind(fs, table, a, g - 1).value, Kind(fs, table, b, g - 1).value) == Ok(k)
    ensures Checks(fs, table, a, depth + 1, n, visiting, Kind(fs, table, a, g - 1).value, Size(fs, table, a, g - 1))
    ensures Checks(fs, table, b, depth + 1, n + Size(fs, table, a, g - 1), visiting, Kind(fs, table, b, g - 1).value, Size(fs, table, b, g - 1))
    decreases g, 0, 0
  {
    hide Check, Checks, Clear, Size;
    ClearLower(fs, visiting, g, g - 1);
    TypedChecks(fs, table, a, depth + 1, n, visiting, g - 1, Kind(fs, table, a, g - 1).value);
    TypedChecks(fs, table, b, depth + 1, n + Size(fs, table, a, g - 1), visiting, g - 1, Kind(fs, table, b, g - 1).value);
  }

  lemma {:induction false} NamedTypedChecks(fs: CheckedFormulas, table: TableId, name: string, depth: nat, n: nat, visiting: set<FormulaKey>, g: nat, k: NumericKind)
    requires Kind(fs, table, Named(name), g) == Some(k) && g <= Height(fs.limits, depth) && Clear(fs, visiting, g)
    ensures var key := FormulaKey(table, name);
            && key !in visiting && key in fs.definitions
            && Checks(fs, table, fs.definitions[key], depth + 1, n, visiting + {key}, k, Size(fs, table, fs.definitions[key], g - 1))
    decreases g, 0, 0
  {
    hide Check, Checks;
    var key := FormulaKey(table, name);
    var body := fs.definitions[key];
    assert Kind(fs, table, body, g - 1) == Some(k);
    var least := LeastHeight(fs, table, body, g - 1);
    ClearLower(fs, visiting, g, least);
    assert Clear(fs, visiting + {key}, least);
    SizeHeight(fs, table, body, least, g - 1);
    TypedChecks(fs, table, body, depth + 1, n, visiting + {key}, least, k);
  }

  lemma {:induction false} AllTypedCheck(fs: CheckedFormulas, table: TableId, vs: seq<Expression>, depth: nat, nodes: nat, visiting: set<FormulaKey>, g: nat,
                                         kind: Option<NumericKind>, k: NumericKind)
    requires (forall i :: 0 <= i < |vs| ==> Kind(fs, table, vs[i], g) == Some(k)) && g <= Height(fs.limits, depth) && Clear(fs, visiting, g)
    requires (kind.Some? ==> kind.value == k) && (vs == [] ==> kind.Some?) && nodes <= fs.limits.maxNodes
    ensures ChecksAll(fs, table, vs, depth, nodes, visiting, kind, k, Sizes(fs, table, vs, g))
    decreases g, 2, |vs|
  {
    hide Kind, Check, Size, Clear;
    if vs != [] {
      TypedChecks(fs, table, vs[0], depth, nodes, visiting, g, k);
      if nodes + Size(fs, table, vs[0], g) <= fs.limits.maxNodes {
        AllTypedCheck(fs, table, vs[1..], depth, nodes + Size(fs, table, vs[0], g), visiting, g, Some(k), k);
      }
    }
  }

  /** The size does not depend on the height that types. */
  lemma {:induction false} SizeHeight(fs: CheckedFormulas, table: TableId, e: Expression, h: nat, h': nat)
    requires Kind(fs, table, e, h).Some? && h <= h'
    ensures Size(fs, table, e, h) == Size(fs, table, e, h')
    decreases h, 0, 0
  {
    match e
    case FieldValue(_) =>
    case Lookup(_, _) =>
    case Sum(child, _, v) => SizeHeight(fs, child, v, h - 1, h' - 1);
    case Product(a, b) =>
      SizeHeight(fs, table, a, h - 1, h' - 1);
      SizeHeight(fs, table, b, h - 1, h' - 1);
    case Total(vs) => SizesHeight(fs, table, vs, h - 1, h' - 1);
    case Named(name) => SizeHeight(fs, table, fs.definitions[FormulaKey(table, name)], h - 1, h' - 1);
  }

  lemma {:induction false} SizesHeight(fs: CheckedFormulas, table: TableId, vs: seq<Expression>, h: nat, h': nat)
    requires (forall i :: 0 <= i < |vs| ==> Kind(fs, table, vs[i], h).Some?) && h <= h'
    ensures Sizes(fs, table, vs, h) == Sizes(fs, table, vs, h')
    decreases h, 1, |vs|
  {
    if vs != [] {
      SizeHeight(fs, table, vs[0], h, h');
      SizesHeight(fs, table, vs[1..], h, h');
    }
  }

  /** A formula checks from the top exactly when it is typed within the depth limit and no larger than the node limit. */
  lemma CheckExactly(fs: CheckedFormulas, key: FormulaKey, k: NumericKind)
    requires key in fs.definitions
    ensures Check(fs, key.table, fs.definitions[key], 1, 0, {key}).0 == Ok(k) <==>
              Typed(fs, key.table, fs.definitions[key], k, fs.limits.maxDepth)
              && Size(fs, key.table, fs.definitions[key], fs.limits.maxDepth) <= fs.limits.maxNodes
  {
    hide Check, Kind, Typed, Size;
    var e, h := fs.definitions[key], fs.limits.maxDepth;
    assert Height(fs.limits, 1) == h;
    KindMeans(fs, key.table, e, k, h);
    if Check(fs, key.table, e, 1, 0, {key}).0.Ok? {
      CheckTyped(fs, key.table, e, 1, 0, {key});
    }
    if Kind(fs, key.table, e, h) == Some(k) {
      var least := LeastHeight(fs, key.table, e, h);
      SizeHeight(fs, key.table, e, least, h);
      TypedChecks(fs, key.table, e, 1, 0, {key}, least, k);
    }
  }

  // ------------------------------------------------------------ what an unfolding touches

  /** Field `f` is read on the very rows that `e` is evaluated on. */
  ghost predicate ReadsHere(fs: CheckedFormulas, table: TableId, e: Expression, h: nat, f: FieldId)
    decreases h
  {
    && h > 0
    && match e
       case FieldValue(g) => f == g
       case Lookup(r, _) => f == r
       case Sum(_, _, _) => false
       case Product(a, b) => ReadsHere(fs, table, a, h - 1, f) || ReadsHere(fs, table, b, h - 1, f)
       case Total(vs) => exists i :: 0 <= i < |vs| && ReadsHere(fs, table, vs[i], h - 1, f)
       case Named(name) => FormulaKey(table, name) in fs.definitions && ReadsHere(fs, table, fs.definitions[FormulaKey(table, name)], h - 1, f)
  }

  /** Field `f` of table `t` is read somewhere in the unfolding. */
  ghost predicate ReadsField(fs: CheckedFormulas, table: TableId, e: Expression, h: nat, t: TableId, f: FieldId)
    decreases h
  {
    && h > 0
    && match e
       case FieldValue(g) => t == table && f == g
       case Lookup(r, g) => (t == table && f == r) || (Refers(fs.shape, table, r, t) && f == g)
       case Sum(child, r, v) => (t == child && f == r) || ReadsField(fs, child, v, h - 1, t, f)
       case Product(a, b) => ReadsField(fs, table, a, h - 1, t, f) || ReadsField(fs, table, b, h - 1, t, f)
       case Total(vs) => exists i :: 0 <= i < |vs| && ReadsField(fs, table, vs[i], h - 1, t, f)
       case Named(name) => FormulaKey(table, name) in fs.definitions && ReadsField(fs, table, fs.definitions[FormulaKey(table, name)], h - 1, t, f)
  }

  /** The rows of table `t` are scanned for `fields`: the linking reference and what the summand reads on them. */
  ghost predicate Scans(fs: CheckedFormulas, table: TableId, e: Expression, h: nat, t: TableId, fields: set<FieldId>)
    decreases h
  {
    && h > 0
    && match e
       case FieldValue(_) => false
       case Lookup(_, _) => false
       case Sum(child, r, v) =>
         || (t == child && forall f :: f in fields <==> f == r || ReadsHere(fs, child, v, h - 1, f))
         || Scans(fs, child, v, h - 1, t, fields)
       case Product(a, b) => Scans(fs, table, a, h - 1, t, fields) || Scans(fs, table, b, h - 1, t, fields)
       case Total(vs) => exists i :: 0 <= i < |vs| && Scans(fs, table, vs[i], h - 1, t, fields)
       case Named(name) => FormulaKey(table, name) in fs.definitions && Scans(fs, table, fs.definitions[FormulaKey(table, name)], h - 1, t, fields)
  }

  /** Every field that the unfolding reads is allowed, and so is every scan. */
  ghost predicate TouchesAllowed(fs: CheckedFormulas, p: OutputPolicy, table: TableId, e: Expression, h: nat) {
    && (forall t, f :: ReadsField(fs, table, e, h, t, f) ==> p.field(Key(t, f)))
    && (forall t, fields :: Scans(fs, table, e, h, t, fields) ==> p.scan(t, fields))
  }

  lemma {:induction false} CollectMeans(fs: CheckedFormulas, table: TableId, e: Expression, h: nat, f: FieldId)
    requires Kind(fs, table, e, h).Some?
    ensures f in CollectFields(fs, table, e, h) <==> ReadsHere(fs, table, e, h, f)
    decreases h, 0, 0
  {
    match e
    case FieldValue(_) =>
    case Lookup(_, _) =>
    case Sum(_, _, _) =>
    case Product(a, b) =>
      CollectMeans(fs, table, a, h - 1, f);
      CollectMeans(fs, table, b, h - 1, f);
    case Total(vs) => CollectAllMeans(fs, table, vs, h - 1, f);
    case Named(name) => CollectMeans(fs, table, fs.definitions[FormulaKey(table, name)], h - 1, f);
  }

  lemma {:induction false} CollectAllMeans(fs: CheckedFormulas, table: TableId, vs: seq<Expression>, h: nat, f: FieldId)
    requires forall i :: 0 <= i < |vs| ==> Kind(fs, table, vs[i], h).Some?
    ensures f in CollectAll(fs, table, vs, h) <==> exists i :: 0 <= i < |vs| && ReadsHere(fs, table, vs[i], h, f)
    decreases h, 1, |vs|
  {
    hide Kind, CollectFields, ReadsHere;
    if vs != [] {
      CollectMeans(fs, table, vs[0], h, f);
      CollectAllMeans(fs, table, vs[1..], h, f);
      assert forall i :: 0 <= i < |vs| - 1 ==> vs[1..][i] == vs[i + 1];
      if exists i :: 0 <= i < |vs| && ReadsHere(fs, table, vs[i], h, f) {
        var i :| 0 <= i < |vs| && ReadsHere(fs, table, vs[i], h, f);
        if i > 0 {
          assert ReadsHere(fs, table, vs[1..][i - 1], h, f);
        }
      }
    }
  }

  lemma {:induction false} HereIsRead(fs: CheckedFormulas, table: TableId, e: Expression, h: nat, f: FieldId)
    requires ReadsHere(fs, table, e, h, f)
    ensures ReadsField(fs, table, e, h, table, f)
    decreases h
  {
    match e
    case FieldValue(_) =>
    case Lookup(_, _) =>
    case Product(a, b) =>
      if ReadsHere(fs, table, a, h - 1, f) {
        HereIsRead(fs, table, a, h - 1, f);
      } else {
        HereIsRead(fs, table, b, h - 1, f);
      }
    case Total(vs) =>
      var i :| 0 <= i < |vs| && ReadsHere(fs, table, vs[i], h - 1, f);
      HereIsRead(fs, table, vs[i], h - 1, f);
    case Named(name) => HereIsRead(fs, table, fs.definitions[FormulaKey(table, name)], h - 1, f);
  }

  /** An evaluation is authorized exactly when everything its unfolding touches is allowed. */
  lemma {:induction false} AuthorizesExactly(fs: CheckedFormulas, p: OutputPolicy, table: TableId, e: Expression, h: nat)
    requires Kind(fs, table, e, h).Some?
    ensures Authorizes(fs, p, table, e, h) <==> TouchesAllowed(fs, p, table, e, h)
    decreases h, 1, 0
  {
    match e
    case FieldValue(f) => assert ReadsField(fs, table, e, h, table, f);
    case Lookup(r, f) =>
      var target := RefTarget(fs.shape, table, r).value;
      assert ReadsField(fs, table, e, h, table, r) && ReadsField(fs, table, e, h, target, f);
    case Sum(child, r, v) => SumAuthorized(fs, p, table, child, r, v, h);
    case Product(a, b) => ProductAuthorized(fs, p, table, a, b, h);
    case Total(vs) => TotalAuthorized(fs, p, table, vs, h);
    case Named(name) =>
      AuthorizesExactly(fs, p, table, fs.definitions[FormulaKey(table, name)], h - 1);
      NamedTouches(fs, p, table, name, h);
  }

  lemma NamedTouches(fs: CheckedFormulas, p: OutputPolicy, table: TableId, name: string, h: nat)
    requires h > 0 && FormulaKey(table, name) in fs.definitions
    ensures TouchesAllowed(fs, p, table, Named(name), h) <==> TouchesAllowed(fs, p, table, fs.definitions[FormulaKey(table, name)], h - 1)
  {
    var body := fs.definitions[FormulaKey(table, name)];
    assert forall t, f :: ReadsField(fs, table, Named(name), h, t, f) <==> ReadsField(fs, table, body, h - 1, t, f);
    assert forall t, s :: Scans(fs, table, Named(name), h, t, s) <==> Scans(fs, table, body, h - 1, t, s);
  }

  lemma {:induction false} ProductAuthorized(fs: CheckedFormulas, p: OutputPolicy, table: TableId, a: Expression, b: Expression, h: nat)
    requires Kind(fs, table, Product(a, b), h).Some?
    ensures Authorizes(fs, p, table, Product(a, b), h) <==> TouchesAllowed(fs, p, table, Product(a, b), h)
    decreases h, 0, 0
  {
    var e := Product(a, b);
    AuthorizesExactly(fs, p, table, a, h - 1);
    AuthorizesExactly(fs, p, table, b, h - 1);
    assert forall t, f :: ReadsField(fs, table, e, h, t, f) <==> ReadsField(fs, table, a, h - 1, t, f) || ReadsField(fs, table, b, h - 1, t, f);
    assert forall t, s :: Scans(fs, table, e, h, t, s) <==> Scans(fs, table, a, h - 1, t, s) || Scans(fs, table, b, h - 1, t, s);
  }

  lemma {:induction false} SumAuthorized(fs: CheckedFormulas, p: OutputPolicy, table: TableId, child: TableId, r: FieldId, v: Expression, h: nat)
    requires Kind(fs, table, Sum(child, r, v), h).Some?
    ensures Authorizes(fs, p, table, Sum(child, r, v), h) <==> TouchesAllowed(fs, p, table, Sum(child, r, v), h)
    decreases h, 0, 0
  {
    var e := Sum(child, r, v);
    var fields := {r} + CollectFields(fs, child, v, h - 1);
    AuthorizesExactly(fs, p, child, v, h - 1);
    var g: nat := h - 1;
    forall f
      ensures f in fields <==> f == r || ReadsHere(fs, child, v, g, f)
      ensures ReadsHere(fs, child, v, g, f) ==> ReadsField(fs, child, v, g, child, f)
    {
      CollectMeans(fs, child, v, g, f);
      if ReadsHere(fs, child, v, g, f) {
        HereIsRead(fs, child, v, g, f);
      }
    }
    SumTouches(fs, p, table, child, r, v, h, g, fields);
  }

  lemma SumTouches(fs: CheckedFormulas, p: OutputPolicy, table: TableId, child: TableId, r: FieldId, v: Expression, h: nat, g: nat, fields: set<FieldId>)
    requires h == g + 1
    requires forall f :: f in fields <==> f == r || ReadsHere(fs, child, v, g, f)
    requires forall f :: ReadsHere(fs, child, v, g, f) ==> ReadsField(fs, child, v, g, child, f)
    ensures TouchesAllowed(fs, p, table, Sum(child, r, v), h) <==> AllowsScan(p, child, fields) && TouchesAllowed(fs, p, child, v, g)
  {
    hide ReadsHere;
    var e := Sum(child, r, v);
    assert forall t, f :: ReadsField(fs, table, e, h, t, f) <==> (t == child && f == r) || ReadsField(fs, child, v, g, t, f);
    forall t, s
      ensures Scans(fs, table, e, h, t, s) <==> (t == child && s == fields) || Scans(fs, child, v, g, t, s)
    {
      if forall f :: f in s <==> f == r || ReadsHere(fs, child, v, g, f) {
        assert forall f :: f in s <==> f in fields;
        assert s == fields;
      }
    }
    assert ReadsField(fs, table, e, h, child, r) && Scans(fs, table, e, h, child, fields);
  }

  lemma {:induction false} TotalAuthorized(fs: CheckedFormulas, p: OutputPolicy, table: TableId, vs: seq<Expression>, h: nat)
    requires Kind(fs, table, Total(vs), h).Some?
    ensures Authorizes(fs, p, table, Total(vs), h) <==> TouchesAllowed(fs, p, table, Total(vs), h)
    decreases h, 0, 0
  {
    hide TouchesAllowed;
    AllAuthorized(fs, p, table, vs, h - 1);
    TotalTouches(fs, p, table, vs, h);
  }

  lemma TotalTouches(fs: CheckedFormulas, p: OutputPolicy, table: TableId, vs: seq<Expression>, h: nat)
    requires h > 0
    ensures TouchesAllowed(fs, p, table, Total(vs), h) <==> forall i :: 0 <= i < |vs| ==> TouchesAllowed(fs, p, table, vs[i], h - 1)
  {
    var e := Total(vs);
    assert forall t, f :: ReadsField(fs, table, e, h, t, f) <==> exists i :: 0 <= i < |vs| && ReadsField(fs, table, vs[i], h - 1, t, f);
    assert forall t, s :: Scans(fs, table, e, h, t, s) <==> exists i :: 0 <= i < |vs| && Scans(fs, table, vs[i], h - 1, t, s);
    if TouchesAllowed(fs, p, table, e, h) {
      forall i | 0 <= i < |vs|
        ensures TouchesAllowed(fs, p, table, vs[i], h - 1)
      {
        assert forall t, f :: ReadsField(fs, table, vs[i], h - 1, t, f) ==> ReadsField(fs, table, e, h, t, f);
        assert forall t, s :: Scans(fs, table, vs[i], h - 1, t, s) ==> Scans(fs, table, e, h, t, s);
      }
    }
  }

  lemma {:induction false} AllAuthorized(fs: CheckedFormulas, p: OutputPolicy, table: TableId, vs: seq<Expression>, h: nat)
    requires forall i :: 0 <= i < |vs| ==> Kind(fs, table, vs[i], h).Some?
    ensures AuthorizesAll(fs, p, table, vs, h) <==> forall i :: 0 <= i < |vs| ==> TouchesAllowed(fs, p, table, vs[i], h)
    decreases h, 2, |vs|
  {
    hide TouchesAllowed, Authorizes, Kind;
    if vs != [] {
      AuthorizesExactly(fs, p, table, vs[0], h);
      AllAuthorized(fs, p, table, vs[1..], h);
      assert forall i :: 0 <= i < |vs| - 1 ==> vs[1..][i] == vs[i + 1];
      if forall i :: 0 <= i < |vs| - 1 ==> TouchesAllowed(fs, p, table, vs[1..][i], h) {
        forall i | 1 <= i < |vs|
          ensures TouchesAllowed(fs, p, table, vs[i], h)
        {
          assert vs[i] == vs[1..][i - 1];
        }
      }
    }
  }

  /** With the snapshot and the records allowed, an evaluation is denied exactly when a field or a scan it touches is not allowed. */
  lemma DeniedExactly(env: Env, spec: Spec, scope: Scope, row: RawRecord, key: FormulaKey)
    requires Accepted(env.fs) && env.fs.shape == ShapeOf(spec) && CheckedRecords(spec, scope, env.rows)
    requires key in env.fs.definitions && row in env.rows && row.table == key.table
    requires Kind(env.fs, key.table, env.fs.definitions[key], Height(env.fs.limits, 1)).Some?
    requires RecordsVisible(env.policy)
    ensures EvaluateFormula(env, row, key) == Err(OutputDenied) <==>
              !TouchesAllowed(env.fs, env.policy, key.table, env.fs.definitions[key], env.fs.limits.maxDepth)
    ensures AllowsEverything(env.policy) ==> EvaluateFormula(env, row, key) != Err(OutputDenied)
  {
    hide Eval, Kind, Check, Denote, InRange, Authorizes, Cost, TouchesAllowed, RecordsVisible;
    var h := Height(env.fs.limits, 1);
    AuthorizesExactly(env.fs, env.policy, key.table, env.fs.definitions[key], h);
    EverythingAllowed(env.fs, env.policy, key.table, env.fs.definitions[key], h);
    if Authorizes(env.fs, env.policy, key.table, env.fs.definitions[key], h) {
      FormulaExact(env, spec, scope, row, key);
    }
  }

  lemma EverythingAllowed(fs: CheckedFormulas, p: OutputPolicy, table: TableId, e: Expression, h: nat)
    ensures AllowsEverything(p) ==> TouchesAllowed(fs, p, table, e, h)
  {
  }

  // ------------------------------------------------------------ which formula sets are accepted

  predicate NameReads(name: string) {
    && 1 <= |name| && |name| <= 64
    && forall ch :: ch in name ==> var n := ch as int; (97 <= n && n <= 122) || (65 <= n && n <= 90) || (48 <= n && n <= 57) || n == 95
  }

  lemma NameMeans(name: string)
    ensures ValidName(name) <==> NameReads(name)
  {
    if ValidName(name) {
      forall ch | ch in name
        ensures var n := ch as int; (97 <= n && n <= 122) || (65 <= n && n <= 90) || (48 <= n && n <= 57) || n == 95
      {
        var i :| 0 <= i < |name| && name[i] == ch;
      }
    }
    if NameReads(name) {
      forall i | 0 <= i < |name|
        ensures 'a' <= name[i] <= 'z' || 'A' <= name[i] <= 'Z' || '0' <= name[i] <= '9' || name[i] == '_'
      {
        assert name[i] in name;
      }
    }
  }

  /** Distinct definitions are all found under their own names, and nothing else is. */
  lemma {:induction false} DefinitionsAre(ds: seq<FormulaDefinition>)
    requires DistinctDefinitions(ds)
    ensures forall d :: d in ds ==> FormulaKey(d.table, d.name) in DefinitionMap(ds) && DefinitionMap(ds)[FormulaKey(d.table, d.name)] == d.expression
    ensures forall k :: k in DefinitionMap(ds) ==> exists d :: d in ds && FormulaKey(d.table, d.name) == k
  {
    if ds != [] {
      var n := |ds| - 1;
      var front := ds[..n];
      assert forall i :: 0 <= i < n ==> front[i] == ds[i];
      DefinitionsAre(front);
      forall d | d in ds
        ensures FormulaKey(d.table, d.name) in DefinitionMap(ds) && DefinitionMap(ds)[FormulaKey(d.table, d.name)] == d.expression
      {
        var i :| 0 <= i < |ds| && ds[i] == d;
        if i < n {
          assert front[i] in front;
          assert DefinitionKey(ds[i]) != DefinitionKey(ds[n]);
        }
      }
      forall k | k in DefinitionMap(ds)
        ensures exists d :: d in ds && FormulaKey(d.table, d.name) == k
      {
        if k == DefinitionKey(ds[n]) {
          assert ds[n] in ds;
        } else {
          var d :| d in front && FormulaKey(d.table, d.name) == k;
          assert d in ds;
        }
      }
    }
  }

  /** A set of formulas is well formed, and each is typed and small enough once unfolded. */
  ghost predicate Compiles(spec: Spec, ds: seq<FormulaDefinition>, limits: Limits, raw: CheckedFormulas) {
    && 1 <= limits.maxNodes && limits.maxNodes <= 16_384
    && 1 <= limits.maxDepth && limits.maxDepth <= 64
    && 1 <= limits.maxRecords && limits.maxRecords <= 10_000
    && |ds| <= 64
    && (forall i, j :: 0 <= i < j < |ds| ==> ds[i].table != ds[j].table || ds[i].name != ds[j].name)
    && (forall d :: d in ds ==> NameReads(d.name) && exists t :: t in spec.tables && t.id == d.table)
    && (forall d :: d in ds ==>
          && (exists k :: Typed(raw, d.table, d.expression, k, limits.maxDepth))
          && Size(raw, d.table, d.expression, limits.maxDepth) <= limits.maxNodes)
  }

  /** The compiler accepts exactly the formula sets that compile in plain terms. */
  lemma AcceptsExactly(spec: Spec, ds: seq<FormulaDefinition>, limits: Limits)
    requires Checked(spec)
    ensures var raw := CheckedFormulas(DefinitionMap(ds), map[], limits, ShapeOf(spec));
            ValidLimits(limits) && WellNamed(spec, ds) && AllCheck(raw) <==> Compiles(spec, ds, limits, raw)
  {
    hide Checked, Check, Typed, Size, DefinitionMap, ShapeOf, ValidName, NameReads, FindTable;
    var raw := CheckedFormulas(DefinitionMap(ds), map[], limits, ShapeOf(spec));
    WellNamedMeans(spec, ds);
    if WellNamed(spec, ds) {
      DefinitionsAre(ds);
      forall d | d in ds
        ensures Check(raw, d.table, d.expression, 1, 0, {FormulaKey(d.table, d.name)}).0.Ok? <==>
                  && (exists k :: Typed(raw, d.table, d.expression, k, limits.maxDepth))
                  && Size(raw, d.table, d.expression, limits.maxDepth) <= limits.maxNodes
      {
        var key := FormulaKey(d.table, d.name);
        assert raw.definitions[key] == d.expression;
        if Check(raw, d.table, d.expression, 1, 0, {key}).0.Ok? {
          CheckExactly(raw, key, Check(raw, d.table, d.expression, 1, 0, {key}).0.value);
        }
        if k :| Typed(raw, d.table, d.expression, k, limits.maxDepth) {
          CheckExactly(raw, key, k);
        }
      }
      if AllCheck(raw) {
        forall d | d in ds
          ensures Check(raw, d.table, d.expression, 1, 0, {FormulaKey(d.table, d.name)}).0.Ok?
        {
          assert FormulaKey(d.table, d.name) in raw.definitions;
        }
      }
    }
  }

  lemma WellNamedMeans(spec: Spec, ds: seq<FormulaDefinition>)
    requires Checked(spec)
    ensures WellNamed(spec, ds) <==>
              && |ds| <= 64
              && (forall i, j :: 0 <= i < j < |ds| ==> ds[i].table != ds[j].table || ds[i].name != ds[j].name)
              && (forall d :: d in ds ==> NameReads(d.name) && exists t :: t in spec.tables && t.id == d.table)
  {
    hide Checked, ValidName, NameReads;
    forall d: FormulaDefinition
      ensures ValidName(d.name) && FindTable(spec.tables, d.table).Some? <==> NameReads(d.name) && exists t :: t in spec.tables && t.id == d.table
    {
      NameMeans(d.name);
      if t :| t in spec.tables && t.id == d.table {
        TableFound(spec, t);
      }
    }
    if WellNamed(spec, ds) {
      forall d | d in ds
        ensures NameReads(d.name) && exists t :: t in spec.tables && t.id == d.table
      {
        var i :| 0 <= i < |ds| && ds[i] == d;
        assert ValidName(ds[i].name) && FindTable(spec.tables, ds[i].table).Some?;
      }
    }
    if forall d :: d in ds ==> NameReads(d.name) && exists t :: t in spec.tables && t.id == d.table {
      forall i | 0 <= i < |ds|
        ensures ValidName(ds[i].name) && FindTable(spec.tables, ds[i].table).Some?
      {
        assert ds[i] in ds;
      }
    }
  }

  // ------------------------------------------------------------ what sums add up

  /** Row `c` refers to `row` through field `r`. */
  predicate Links(c: RawRecord, r: FieldId, row: RawRecord) {
    r in c.values && c.values[r].Ref? && c.values[r].ref.table == row.table && c.values[r].ref.record == row.id
  }

  /** A roll-up adds, row by row, the number that the summand is on each linked row of the child table; rows without one add nothing. */
  lemma RollupAdds(fs: CheckedFormulas, rows: seq<RawRecord>, row: RawRecord, child: TableId, r: FieldId, v: Expression, cs: seq<RawRecord>, c: RawRecord, h: nat)
    ensures DenoteChildren(fs, rows, row, child, r, v, [], h) == 0
    ensures DenoteChildren(fs, rows, row, child, r, v, cs + [c], h)
            == DenoteChildren(fs, rows, row, child, r, v, cs, h)
               + if c.table == child && Links(c, r, row) && Denote(fs, rows, c, v, h).Some? then Denote(fs, rows, c, v, h).value else 0
  {
    hide Denote;
    assert (cs + [c])[..|cs|] == cs;
  }

  /** A total adds its summands one by one; a summand without a number adds nothing. */
  lemma TotalAdds(fs: CheckedFormulas, rows: seq<RawRecord>, row: RawRecord, vs: seq<Expression>, e: Expression, h: nat)
    ensures Denote(fs, rows, row, Total([]), h + 1) == Some(0)
    ensures Denote(fs, rows, row, Total(vs), h + 1).Some?
    ensures Denote(fs, rows, row, Total(vs + [e]), h + 1)
            == Some(Denote(fs, rows, row, Total(vs), h + 1).value + if Denote(fs, rows, row, e, h).Some? then Denote(fs, rows, row, e, h).value else 0)
  {
    assert (vs + [e])[..|vs|] == vs;
  }

  // ------------------------------------------------------------ which records are read

  /** Evaluating `e` on `row` reads record `k`. */
  ghost predicate Visits(fs: CheckedFormulas, rows: seq<RawRecord>, row: RawRecord, e: Expression, h: nat, k: Key)
    decreases h
  {
    && h > 0
    && match e
       case FieldValue(_) => k == Key(row.table, row.id)
       case Lookup(r, _) =>
         || k == Key(row.table, row.id)
         || (r in row.values && row.values[r].Ref? && k == Key(row.values[r].ref.table, row.values[r].ref.record))
       case Sum(child, r, v) =>
         exists i :: 0 <= i < |rows| && rows[i].table == child
                     && (k == Key(rows[i].table, rows[i].id) || (Links(rows[i], r, row) && Visits(fs, rows, rows[i], v, h - 1, k)))
       case Product(a, b) => Visits(fs, rows, row, a, h - 1, k) || Visits(fs, rows, row, b, h - 1, k)
       case Total(vs) => exists i :: 0 <= i < |vs| && Visits(fs, rows, row, vs[i], h - 1, k)
       case Named(name) => FormulaKey(row.table, name) in fs.definitions && Visits(fs, rows, row, fs.definitions[FormulaKey(row.table, name)], h - 1, k)
  }

  /** Every record that the evaluation reads is allowed. */
  ghost predicate VisitsAllowed(env: Env, row: RawRecord, e: Expression, h: nat) {
    forall k :: Visits(env.fs, env.rows, row, e, h, k) ==> env.policy.record(k)
  }

  /** The same host policy with every record allowed. */
  function Unveiled(p: OutputPolicy): OutputPolicy {
    p.(record := _ => true)
  }

  function Open(env: Env): Env {
    env.(policy := Unveiled(env.policy))
  }

  /** An evaluation of a summand on the candidates from `i` on reads allowed records only. */
  ghost predicate ChildrenAllowed(env: Env, row: RawRecord, child: TableId, r: FieldId, v: Expression, h: nat, i: nat) {
    forall j :: i <= j < |env.rows| && env.rows[j].table == child ==>
      && env.policy.record(Key(env.rows[j].table, env.rows[j].id))
      && (Links(env.rows[j], r, row) ==> VisitsAllowed(env, env.rows[j], v, h))
  }

  lemma SumVisits(env: Env, row: RawRecord, child: TableId, r: FieldId, v: Expression, h: nat)
    requires h > 0
    ensures VisitsAllowed(env, row, Sum(child, r, v), h) <==> ChildrenAllowed(env, row, child, r, v, h - 1, 0)
  {
    var e := Sum(child, r, v);
    var g: nat := h - 1;
    hide Links;
    if VisitsAllowed(env, row, e, h) {
      forall j | 0 <= j < |env.rows| && env.rows[j].table == child
        ensures env.policy.record(Key(env.rows[j].table, env.rows[j].id))
        ensures Links(env.rows[j], r, row) ==> VisitsAllowed(env, env.rows[j], v, g)
      {
        assert Visits(env.fs, env.rows, row, e, h, Key(env.rows[j].table, env.rows[j].id));
        if Links(env.rows[j], r, row) {
          forall k | Visits(env.fs, env.rows, env.rows[j], v, g, k)
            ensures env.policy.record(k)
          {
            assert Visits(env.fs, env.rows, row, e, h, k);
          }
        }
      }
    }
    if ChildrenAllowed(env, row, child, r, v, g, 0) {
      forall k | Visits(env.fs, env.rows, row, e, h, k)
        ensures env.policy.record(k)
      {
        var i :| 0 <= i < |env.rows| && env.rows[i].table == child
                 && (k == Key(env.rows[i].table, env.rows[i].id) || (Links(env.rows[i], r, row) && Visits(env.fs, env.rows, env.rows[i], v, g, k)));
      }
    }
  }

  lemma TotalVisits(env: Env, row: RawRecord, vs: seq<Expression>, h: nat)
    requires h > 0
    ensures VisitsAllowed(env, row, Total(vs), h) <==> forall i :: 0 <= i < |vs| ==> VisitsAllowed(env, row, vs[i], h - 1)
  {
    var e := Total(vs);
    var g: nat := h - 1;
    if VisitsAllowed(env, row, e, h) {
      forall i, k | 0 <= i < |vs| && Visits(env.fs, env.rows, row, vs[i], g, k)
        ensures env.policy.record(k)
      {
        assert Visits(env.fs, env.rows, row, e, h, k);
      }
    }
    if forall i :: 0 <= i < |vs| ==> VisitsAllowed(env, row, vs[i], g) {
      forall k | Visits(env.fs, env.rows, row, e, h, k)
        ensures env.policy.record(k)
      {
        var i :| 0 <= i < |vs| && Visits(env.fs, env.rows, row, vs[i], g, k);
        assert VisitsAllowed(env, row, vs[i], g);
      }
    }
  }

  lemma ProductVisits(env: Env, row: RawRecord, a: Expression, b: Expression, h: nat)
    requires h > 0
    ensures VisitsAllowed(env, row, Product(a, b), h) <==> VisitsAllowed(env, row, a, h - 1) && VisitsAllowed(env, row, b, h - 1)
  {
    assert forall k :: Visits(env.fs, env.rows, row, Product(a, b), h, k) <==>
                         Visits(env.fs, env.rows, row, a, h - 1, k) || Visits(env.fs, env.rows, row, b, h - 1, k);
  }

  lemma NamedVisits(env: Env, row: RawRecord, name: string, h: nat)
    requires h > 0 && FormulaKey(row.table, name) in env.fs.definitions
    ensures VisitsAllowed(env, row, Named(name), h) <==> VisitsAllowed(env, row, env.fs.definitions[FormulaKey(row.table, name)], h - 1)
  {
    var body := env.fs.definitions[FormulaKey(row.table, name)];
    assert forall k :: Visits(env.fs, env.rows, row, Named(name), h, k) <==> Visits(env.fs, env.rows, row, body, h - 1, k);
  }

  lemma PointsMeans(c: RawRecord, r: FieldId, row: RawRecord)
    ensures PointsAt(c, r, row) <==> Links(c, r, row)
  {
  }

  /** What an evaluation has to say with its own policy, and with every record allowed. */
  ghost predicate Veiled<T>(r: (Result<T, FormulaError>, Meter), open: (Result<T, FormulaError>, Meter), allowed: bool) {
    (allowed ==> r == open) && (r.0.Ok? ==> allowed)
  }

  /** An evaluation that answers has read allowed records only, and forbidden records it does not read make no difference. */
  lemma {:induction false} EvalVeiled(env: Env, row: RawRecord, e: Expression, depth: nat, m: Meter)
    requires DistinctKeys(RecordKey, env.rows) && row in env.rows
    requires Kind(env.fs, row.table, e, Height(env.fs.limits, depth)).Some?
    ensures Veiled(Eval(env, row, e, depth, m), Eval(Open(env), row, e, depth, m), VisitsAllowed(env, row, e, Height(env.fs.limits, depth)))
    decreases Height(env.fs.limits, depth), 1, 0
  {
    hide Eval, Kind, VisitsAllowed;
    if m.nodes + 1 > env.fs.limits.maxNodes {
      ExhaustedVeiled(env, row, e, depth, m);
    } else {
      match e
      case FieldValue(f) => FieldVeiled(env, row, f, depth, m);
      case Lookup(r, f) => LookupVeiled(env, row, r, f, depth, m);
      case Sum(child, r, v) => SumVeiled(env, row, child, r, v, depth, m);
      case Product(a, b) => ProductVeiled(env, row, a, b, depth, m);
      case Total(vs) => TotalVeiled(env, row, vs, depth, m);
      case Named(name) => NamedVeiled(env, row, name, depth, m);
    }
  }

  lemma ExhaustedVeiled(env: Env, row: RawRecord, e: Expression, depth: nat, m: Meter)
    requires Kind(env.fs, row.table, e, Height(env.fs.limits, depth)).Some? && m.nodes + 1 > env.fs.limits.maxNodes
    ensures Eval(env, row, e, depth, m) == Eval(Open(env), row, e, depth, m) && Eval(env, row, e, depth, m).0.Err?
  {
    hide EvalSum, EvalTotal, EvalLookup, CollectFields;
  }

  lemma FieldVeiled(env: Env, row: RawRecord, f: FieldId, depth: nat, m: Meter)
    requires Kind(env.fs, row.table, FieldValue(f), Height(env.fs.limits, depth)).Some? && m.nodes + 1 <= env.fs.limits.maxNodes
    ensures var e := FieldValue(f);
            Veiled(Eval(env, row, e, depth, m), Eval(Open(env), row, e, depth, m), VisitsAllowed(env, row, e, Height(env.fs.limits, depth)))
  {
    assert Visits(env.fs, env.rows, row, FieldValue(f), Height(env.fs.limits, depth), RecordKey(row));
  }

  lemma LookupVeiled(env: Env, row: RawRecord, r: FieldId, f: FieldId, depth: nat, m: Meter)
    requires DistinctKeys(RecordKey, env.rows) && row in env.rows
    requires Kind(env.fs, row.table, Lookup(r, f), Height(env.fs.limits, depth)).Some? && m.nodes + 1 <= env.fs.limits.maxNodes
    ensures var e := Lookup(r, f);
            Veiled(Eval(env, row, e, depth, m), Eval(Open(env), row, e, depth, m), VisitsAllowed(env, row, e, Height(env.fs.limits, depth)))
  {
    hide Kind, RefTarget, FieldKind, ValueNumber, Visits, FindRow, LookupValue, Eval, VisitsAllowed;
    var h := Height(env.fs.limits, depth);
    LookupReads(env, row, r, f, h);
    KindPositive(env.fs, row.table, Lookup(r, f), h);
    LookupEvaluates(env, row, r, f, depth, m);
    LookupEvaluates(Open(env), row, r, f, depth, m);
    FindRowUnique(env.rows, row);
    LookupHides(env, row, r, f);
  }

  lemma LookupEvaluates(env: Env, row: RawRecord, r: FieldId, f: FieldId, depth: nat, m: Meter)
    requires Kind(env.fs, row.table, Lookup(r, f), Height(env.fs.limits, depth)).Some? && m.nodes + 1 <= env.fs.limits.maxNodes
    ensures Eval(env, row, Lookup(r, f), depth, m) == EvalLookup(env, row, r, f, m.(nodes := m.nodes + 1))
  {
    hide EvalLookup;
  }

  lemma LookupReads(env: Env, row: RawRecord, r: FieldId, f: FieldId, h: nat)
    ensures h > 0 ==>
      (VisitsAllowed(env, row, Lookup(r, f), h) <==>
         env.policy.record(RecordKey(row))
         && (Get(row.values, r).Ref? ==> env.policy.record(Key(Get(row.values, r).ref.table, Get(row.values, r).ref.record))))
  {
    if h > 0 && VisitsAllowed(env, row, Lookup(r, f), h) {
      assert Visits(env.fs, env.rows, row, Lookup(r, f), h, RecordKey(row));
      if Get(row.values, r).Ref? {
        assert Visits(env.fs, env.rows, row, Lookup(r, f), h, Key(Get(row.values, r).ref.table, Get(row.values, r).ref.record));
      }
    }
  }

  lemma LookupHides(env: Env, row: RawRecord, r: FieldId, f: FieldId)
    requires FindRow(env.rows, RecordKey(row)) == Some(row)
    ensures var allowed := env.policy.record(RecordKey(row))
                           && (Get(row.values, r).Ref? ==> env.policy.record(Key(Get(row.values, r).ref.table, Get(row.values, r).ref.record)));
            var v := LookupValue(env, RecordKey(row), r, f);
            && (allowed ==> v == LookupValue(Open(env), RecordKey(row), r, f))
            && (v.Ok? ==> allowed)
  {
    hide RefTarget;
  }

  lemma {:induction false} ProductVeiled(env: Env, row: RawRecord, a: Expression, b: Expression, depth: nat, m: Meter)
    requires DistinctKeys(RecordKey, env.rows) && row in env.rows
    requires Kind(env.fs, row.table, Product(a, b), Height(env.fs.limits, depth)).Some? && m.nodes + 1 <= env.fs.limits.maxNodes
    ensures var e := Product(a, b);
            Veiled(Eval(env, row, e, depth, m), Eval(Open(env), row, e, depth, m), VisitsAllowed(env, row, e, Height(env.fs.limits, depth)))
    decreases Height(env.fs.limits, depth), 0, 0
  {
    hide Eval, Kind, VisitsAllowed, MultiplyNumbers, DistinctKeys;
    var m1 := m.(nodes := m.nodes + 1);
    DepthLeft(env.fs, row.table, Product(a, b), depth);
    ProductTyped(env.fs, row.table, a, b, Height(env.fs.limits, depth + 1));
    ProductUnfolds(env, row, a, b, depth, m);
    ProductUnfolds(Open(env), row, a, b, depth, m);
    ProductVisits(env, row, a, b, Height(env.fs.limits, depth));
    EvalVeiled(env, row, a, depth + 1, m1);
    EvalVeiled(env, row, b, depth + 1, Eval(env, row, a, depth + 1, m1).1);
  }

  lemma DepthLeft(fs: CheckedFormulas, table: TableId, e: Expression, depth: nat)
    requires Kind(fs, table, e, Height(fs.limits, depth)).Some?
    ensures depth <= fs.limits.maxDepth && Height(fs.limits, depth) == Height(fs.limits, depth + 1) + 1
  {
    hide Kind;
    KindPositive(fs, table, e, Height(fs.limits, depth));
  }

  lemma {:induction false} NamedVeiled(env: Env, row: RawRecord, name: string, depth: nat, m: Meter)
    requires DistinctKeys(RecordKey, env.rows) && row in env.rows
    requires Kind(env.fs, row.table, Named(name), Height(env.fs.limits, depth)).Some? && m.nodes + 1 <= env.fs.limits.maxNodes
    ensures var e := Named(name);
            Veiled(Eval(env, row, e, depth, m), Eval(Open(env), row, e, depth, m), VisitsAllowed(env, row, e, Height(env.fs.limits, depth)))
    decreases Height(env.fs.limits, depth), 0, 0
  {
    hide Eval, Kind, VisitsAllowed, DistinctKeys;
    DepthLeft(env.fs, row.table, Named(name), depth);
    NamedEvaluates(env, row, name, depth, m);
    NamedEvaluates(Open(env), row, name, depth, m);
    NamedVisits(env, row, name, Height(env.fs.limits, depth));
    EvalVeiled(env, row, env.fs.definitions[FormulaKey(row.table, name)], depth + 1, m.(nodes := m.nodes + 1));
  }

  lemma NamedEvaluates(env: Env, row: RawRecord, name: string, depth: nat, m: Meter)
    requires Kind(env.fs, row.table, Named(name), Height(env.fs.limits, depth)).Some? && m.nodes + 1 <= env.fs.limits.maxNodes
    ensures FormulaKey(row.table, name) in env.fs.definitions
    ensures var body := env.fs.definitions[FormulaKey(row.table, name)];
            && Kind(env.fs, row.table, body, Height(env.fs.limits, depth + 1)).Some?
            && Eval(env, row, Named(name), depth, m) == Eval(env, row, body, depth + 1, m.(nodes := m.nodes + 1))
  {
  }

  lemma {:induction false} TotalVeiled(env: Env, row: RawRecord, vs: seq<Expression>, depth: nat, m: Meter)
    requires DistinctKeys(RecordKey, env.rows) && row in env.rows
    requires Kind(env.fs, row.table, Total(vs), Height(env.fs.limits, depth)).Some? && m.nodes + 1 <= env.fs.limits.maxNodes
    ensures var e := Total(vs);
            Veiled(Eval(env, row, e, depth, m), Eval(Open(env), row, e, depth, m), VisitsAllowed(env, row, e, Height(env.fs.limits, depth)))
    decreases Height(env.fs.limits, depth), 0, 0
  {
    hide Eval, Kind, VisitsAllowed, EvalTotal, DistinctKeys;
    DepthLeft(env.fs, row.table, Total(vs), depth);
    TotalEvaluates(env, row, vs, depth, m);
    TotalEvaluates(Open(env), row, vs, depth, m);
    TotalVisits(env, row, vs, Height(env.fs.limits, depth));
    SummandsVeiled(env, row, vs, depth + 1, None, 0, m.(nodes := m.nodes + 1));
  }

  lemma TotalEvaluates(env: Env, row: RawRecord, vs: seq<Expression>, depth: nat, m: Meter)
    requires Kind(env.fs, row.table, Total(vs), Height(env.fs.limits, depth)).Some? && m.nodes + 1 <= env.fs.limits.maxNodes
    ensures forall i :: 0 <= i < |vs| ==> Kind(env.fs, row.table, vs[i], Height(env.fs.limits, depth + 1)).Some?
    ensures Eval(env, row, Total(vs), depth, m) == EvalTotal(env, row, vs, depth + 1, None, 0, m.(nodes := m.nodes + 1))
  {
    hide EvalTotal;
  }

  lemma {:induction false} SummandsVeiled(env: Env, row: RawRecord, vs: seq<Expression>, depth: nat, kind: Option<NumericKind>, sum: i64, m: Meter)
    requires DistinctKeys(RecordKey, env.rows) && row in env.rows
    requires forall i :: 0 <= i < |vs| ==> Kind(env.fs, row.table, vs[i], Height(env.fs.limits, depth)).Some?
    ensures Veiled(EvalTotal(env, row, vs, depth, kind, sum, m), EvalTotal(Open(env), row, vs, depth, kind, sum, m),
                   forall i :: 0 <= i < |vs| ==> VisitsAllowed(env, row, vs[i], Height(env.fs.limits, depth)))
    decreases Height(env.fs.limits, depth), 2, |vs|
  {
    hide Eval, Kind, VisitsAllowed, DistinctKeys;
    if vs != [] {
      var h := Height(env.fs.limits, depth);
      EvalVeiled(env, row, vs[0], depth, m);
      FirstAndRest(env, row, vs, h);
      var one := Eval(env, row, vs[0], depth, m);
      if one.0.Ok? && InI64(sum + OrZero(NumberOf(one.0.value))) {
        SummandsVeiled(env, row, vs[1..], depth, Some(KindOf(one.0.value)), sum + OrZero(NumberOf(one.0.value)), one.1);
      }
    }
  }

  lemma FirstAndRest(env: Env, row: RawRecord, vs: seq<Expression>, h: nat)
    requires vs != []
    ensures (forall i :: 0 <= i < |vs| ==> VisitsAllowed(env, row, vs[i], h)) <==>
              VisitsAllowed(env, row, vs[0], h) && forall i :: 0 <= i < |vs[1..]| ==> VisitsAllowed(env, row, vs[1..][i], h)
  {
    hide VisitsAllowed;
    assert forall i :: 0 <= i < |vs[1..]| ==> vs[1..][i] == vs[i + 1];
    if VisitsAllowed(env, row, vs[0], h) && forall i :: 0 <= i < |vs[1..]| ==> VisitsAllowed(env, row, vs[1..][i], h) {
      forall i | 0 <= i < |vs|
        ensures VisitsAllowed(env, row, vs[i], h)
      {
        assert i > 0 ==> vs[i] == vs[1..][i - 1];
      }
    }
  }

  lemma {:induction false} SumVeiled(env: Env, row: RawRecord, child: TableId, r: FieldId, v: Expression, depth: nat, m: Meter)
    requires DistinctKeys(RecordKey, env.rows) && row in env.rows
    requires Kind(env.fs, row.table, Sum(child, r, v), Height(env.fs.limits, depth)).Some? && m.nodes + 1 <= env.fs.limits.maxNodes
    ensures var e := Sum(child, r, v);
            Veiled(Eval(env, row, e, depth, m), Eval(Open(env), row, e, depth, m), VisitsAllowed(env, row, e, Height(env.fs.limits, depth)))
    decreases Height(env.fs.limits, depth), 0, 0
  {
    hide Eval, Kind, VisitsAllowed, EvalChildren, DistinctKeys, Check, CollectFields, AllowsScan, ChildrenAllowed;
    DepthLeft(env.fs, row.table, Sum(child, r, v), depth);
    SumEvaluates(env, row, child, r, v, depth, m);
    SumEvaluates(Open(env), row, child, r, v, depth, m);
    SameScan(env, child, {r} + CollectFields(env.fs, child, v, Height(env.fs.limits, depth + 1)));
    SumVisits(env, row, child, r, v, Height(env.fs.limits, depth));
    assert env.rows[0..] == env.rows;
    ChildrenVeiled(env, row, child, r, v, depth + 1, 0, 0, m.(nodes := m.nodes + 1));
  }

  lemma SameScan(env: Env, table: TableId, fields: set<FieldId>)
    ensures AllowsScan(env.policy, table, fields) == AllowsScan(Open(env).policy, table, fields)
  {
  }

  lemma SumEvaluates(env: Env, row: RawRecord, child: TableId, r: FieldId, v: Expression, depth: nat, m: Meter)
    requires Kind(env.fs, row.table, Sum(child, r, v), Height(env.fs.limits, depth)).Some? && m.nodes + 1 <= env.fs.limits.maxNodes
    ensures Kind(env.fs, child, v, Height(env.fs.limits, depth + 1)).Some?
    ensures var m1 := m.(nodes := m.nodes + 1);
            Eval(env, row, Sum(child, r, v), depth, m) ==
              if !AllowsScan(env.policy, child, {r} + CollectFields(env.fs, child, v, Height(env.fs.limits, depth + 1))) then (Err(OutputDenied), m1)
              else match Check(env.fs, child, v, 1, 0, {}).0
                case Err(x) => (Err(x), m1)
                case Ok(k) =>
                  var s := EvalChildren(env, row, child, r, v, depth + 1, env.rows, 0, m1);
                  match s.0
                  case Err(x) => (Err(x), s.1)
                  case Ok(sum) => (Ok(FromNumber(k, sum)), s.1)
  {
    hide EvalChildren, Check, CollectFields, AllowsScan;
  }

  lemma {:induction false} ChildrenVeiled(env: Env, row: RawRecord, child: TableId, r: FieldId, v: Expression, depth: nat, i: nat, sum: i64, m: Meter)
    requires DistinctKeys(RecordKey, env.rows) && i <= |env.rows|
    requires Kind(env.fs, child, v, Height(env.fs.limits, depth)).Some?
    ensures Veiled(EvalChildren(env, row, child, r, v, depth, env.rows[i..], sum, m),
                   EvalChildren(Open(env), row, child, r, v, depth, env.rows[i..], sum, m),
                   ChildrenAllowed(env, row, child, r, v, Height(env.fs.limits, depth), i))
    decreases Height(env.fs.limits, depth), 2, |env.rows| - i
  {
    hide Eval, Kind, VisitsAllowed, EvalChildren, DistinctKeys, ChildrenAllowed, AllowsField, PointsAt;
    var h := Height(env.fs.limits, depth);
    if i == |env.rows| {
      assert env.rows[i..] == [];
      NoMoreChildren(env, row, child, r, v, depth, sum, m);
      NoMoreChildren(Open(env), row, child, r, v, depth, sum, m);
      NoneLeft(env, row, child, r, v, h);
    } else {
      var c := env.rows[i];
      ChildrenUnfold(env, row, child, r, v, depth, i, sum, m);
      ChildrenUnfold(Open(env), row, child, r, v, depth, i, sum, m);
      NextAllowed(env, row, child, r, v, h, i);
      PointsMeans(c, r, row);
      FieldVeils(env, c, r);
      if c.table != child {
        ChildrenVeiled(env, row, child, r, v, depth, i + 1, sum, m);
      } else if m.records + 1 <= env.fs.limits.maxRecords {
        var m1 := m.(records := m.records + 1);
        if !PointsAt(c, r, row) {
          ChildrenVeiled(env, row, child, r, v, depth, i + 1, sum, m1);
        } else {
          EvalVeiled(env, c, v, depth, m1);
          var one := Eval(env, c, v, depth, m1);
          if one.0.Ok? && InI64(sum + OrZero(NumberOf(one.0.value))) {
            ChildrenVeiled(env, row, child, r, v, depth, i + 1, sum + OrZero(NumberOf(one.0.value)), one.1);
          }
        }
      }
    }
  }

  lemma FieldVeils(env: Env, row: RawRecord, f: FieldId)
    ensures AllowsField(env.policy, row, f) <==> AllowsField(Open(env).policy, row, f) && env.policy.record(Key(row.table, row.id))
  {
  }

  lemma NoneLeft(env: Env, row: RawRecord, child: TableId, r: FieldId, v: Expression, h: nat)
    ensures ChildrenAllowed(env, row, child, r, v, h, |env.rows|)
  {
  }

  lemma NextAllowed(env: Env, row: RawRecord, child: TableId, r: FieldId, v: Expression, h: nat, i: nat)
    requires i < |env.rows|
    ensures ChildrenAllowed(env, row, child, r, v, h, i) <==>
              && ChildrenAllowed(env, row, child, r, v, h, i + 1)
              && (env.rows[i].table == child ==>
                    env.policy.record(Key(env.rows[i].table, env.rows[i].id)) && (Links(env.rows[i], r, row) ==> VisitsAllowed(env, env.rows[i], v, h)))
  {
    hide VisitsAllowed, Links;
  }

  /**
   Nothing leaks: a formula answers exactly when every field, scan and record that its unfolding touches is
   allowed, the arithmetic stays within 64 bits and the cost within the budget.
   */
  lemma DisclosedExactly(env: Env, spec: Spec, scope: Scope, row: RawRecord, key: FormulaKey)
    requires Accepted(env.fs) && env.fs.shape == ShapeOf(spec) && CheckedRecords(spec, scope, env.rows) && env.policy.snapshot
    requires key in env.fs.definitions && row in env.rows && row.table == key.table
    requires Kind(env.fs, key.table, env.fs.definitions[key], Height(env.fs.limits, 1)).Some?
    ensures var e, h := env.fs.definitions[key], env.fs.limits.maxDepth;
            EvaluateFormula(env, row, key).Ok? <==>
              && TouchesAllowed(env.fs, env.policy, key.table, e, h)
              && VisitsAllowed(env, row, e, h)
              && InRange(env.fs, env.rows, row, e, h)
              && Within(FormulaCost(env, row, key), env.fs.limits)
    ensures EvaluateFormula(env, row, key).Ok? ==> EvaluateFormula(env, row, key) == EvaluateFormula(Open(env), row, key)
  {
    hide Eval, Kind, Check, Denote, InRange, Authorizes, Cost, TouchesAllowed, VisitsAllowed, CheckedRecords, DistinctKeys;
    var h := Height(env.fs.limits, 1);
    var e := env.fs.definitions[key];
    Distinct(spec, scope, env.rows);
    AuthorizesExactly(env.fs, env.policy, key.table, e, h);
    AuthorizesExactly(env.fs, Open(env).policy, key.table, e, h);
    SameTouches(env, key.table, e, h);
    EvalVeiled(env, row, e, 1, Meter(0, 1));
    if Authorizes(env.fs, env.policy, key.table, e, h) {
      FormulaExact(Open(env), spec, scope, row, key);
    }
  }

  lemma Distinct(spec: Spec, scope: Scope, rows: seq<RawRecord>)
    requires CheckedRecords(spec, scope, rows)
    ensures DistinctKeys(RecordKey, rows)
  {
  }

  lemma SameTouches(env: Env, table: TableId, e: Expression, h: nat)
    ensures TouchesAllowed(env.fs, env.policy, table, e, h) <==> TouchesAllowed(env.fs, Open(env).policy, table, e, h)
  {
  }
}
