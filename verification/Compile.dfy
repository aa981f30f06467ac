/**
 Compiling a definition: sort every identity-keyed list, then insist that identities are distinct and
 that the parts fit together. What passes is canonical.
 */
module Compile {
  import opened Wrappers
  import opened Sorting
  import opened AppSpec

  // ------------------------------------------------------------ the canonical arrangement

  function Map<T>(f: T -> T, s: seq<T>): (r: seq<T>)
    ensures |r| == |s|
    ensures forall i :: 0 <= i < |s| ==> r[i] == f(s[i])
  {
    if s == [] then [] else [f(s[0])] + Map(f, s[1..])
  }

  function WithSortedFields(t: Table): Table {
    t.(fields := Sort(FieldKey, t.fields))
  }

  function WithSortedParts(c: Command): Command {
    c.(inputs := Sort(InputKey, c.inputs), guards := Sort(GuardKey, c.guards), events := Sort(EventKey, c.events))
  }

  /** The order that `compile` brings every list of a definition into. */
  function Arranged(d: Spec): Spec {
    d.(tables := Map(WithSortedFields, Sort(TableKey, d.tables)),
       captures := Sort(CaptureKey, d.captures),
       policies := Sort(PolicyKey, d.policies),
       constraints := Sort(ConstraintKey, d.constraints),
       machines := Sort(MachineKey, d.machines),
       commands := Map(WithSortedParts, Sort(CommandKey, d.commands)))
  }

  /** `compile`: the canonical definition, or nothing. */
  function Compiled(d: Spec): Option<Spec> {
    if Checked(Arranged(d)) then Some(Arranged(d)) else None
  }

  // ------------------------------------------------------------ canonical forms

  lemma CheckedSorted(d: Spec)
    requires Checked(d)
    ensures StrictlySorted(TableKey, d.tables) && StrictlySorted(CaptureKey, d.captures) && StrictlySorted(PolicyKey, d.policies)
    ensures StrictlySorted(ConstraintKey, d.constraints) && StrictlySorted(MachineKey, d.machines)
    ensures StrictlySorted(CommandKey, d.commands)
    ensures forall i :: 0 <= i < |d.tables| ==> StrictlySorted(FieldKey, d.tables[i].fields)
    ensures forall i :: 0 <= i < |d.commands| ==>
              && StrictlySorted(InputKey, d.commands[i].inputs)
              && StrictlySorted(GuardKey, d.commands[i].guards)
              && StrictlySorted(EventKey, d.commands[i].events)
  {
    hide StrictlySorted, CaptureChecked, PolicyChecked, MachineChecked, FieldCount, InputChecked, GuardChecked;
    forall i | 0 <= i < |d.tables|
      ensures StrictlySorted(FieldKey, d.tables[i].fields)
    {
      assert d.tables[i] in d.tables;
    }
    forall i | 0 <= i < |d.commands|
      ensures StrictlySorted(InputKey, d.commands[i].inputs) && StrictlySorted(GuardKey, d.commands[i].guards)
              && StrictlySorted(EventKey, d.commands[i].events)
    {
      assert CommandChecked(d, d.commands[i]);
    }
  }

  lemma MapFixed<T>(f: T -> T, s: seq<T>)
    requires forall i :: 0 <= i < |s| ==> f(s[i]) == s[i]
    ensures Map(f, s) == s
  {
  }

  /** A checked definition is its own arrangement. */
  lemma ArrangedFixed(d: Spec)
    requires Checked(d)
    ensures Arranged(d) == d
  {
    hide Checked, Sort, StrictlySorted;
    CheckedSorted(d);
    SortFixed(TableKey, d.tables);
    SortFixed(CaptureKey, d.captures);
    SortFixed(PolicyKey, d.policies);
    SortFixed(ConstraintKey, d.constraints);
    SortFixed(MachineKey, d.machines);
    SortFixed(CommandKey, d.commands);
    forall i | 0 <= i < |d.tables|
      ensures WithSortedFields(d.tables[i]) == d.tables[i]
    {
      SortFixed(FieldKey, d.tables[i].fields);
    }
    forall i | 0 <= i < |d.commands|
      ensures WithSortedParts(d.commands[i]) == d.commands[i]
    {
      SortFixed(InputKey, d.commands[i].inputs);
      SortFixed(GuardKey, d.commands[i].guards);
      SortFixed(EventKey, d.commands[i].events);
    }
    MapFixed(WithSortedFields, d.tables);
    MapFixed(WithSortedParts, d.commands);
  }

  /** Compiling twice is compiling once. */
  lemma CompileIdempotent(d: Spec)
    ensures Compiled(d).Some? ==> Compiled(Compiled(d).value) == Compiled(d)
  {
    hide Checked, Arranged;
    if Checked(Arranged(d)) {
      ArrangedFixed(Arranged(d));
    }
  }

  // ------------------------------------------------------------ blindness to order

  /** The same lists in another order. */
  predicate Permuted(a: Spec, b: Spec) {
    && a.version == b.version && a.app == b.app
    && multiset(a.tables) == multiset(b.tables)
    && multiset(a.captures) == multiset(b.captures)
    && multiset(a.policies) == multiset(b.policies)
    && multiset(a.constraints) == multiset(b.constraints)
    && multiset(a.machines) == multiset(b.machines)
    && multiset(a.commands) == multiset(b.commands)
  }

  predicate TablePermuted(t: Table, u: Table) {
    t.id == u.id && multiset(t.fields) == multiset(u.fields)
  }

  predicate CommandPermuted(c: Command, d: Command) {
    && c == d.(inputs := c.inputs, guards := c.guards, events := c.events)
    && multiset(c.inputs) == multiset(d.inputs)
    && multiset(c.guards) == multiset(d.guards)
    && multiset(c.events) == multiset(d.events)
  }

  /** The same lists, with the fields of tables and the parts of commands in another order. */
  predicate PartsPermuted(a: Spec, b: Spec) {
    && b == a.(tables := b.tables, commands := b.commands)
    && |a.tables| == |b.tables| && |a.commands| == |b.commands|
    && (forall i :: 0 <= i < |a.tables| ==> TablePermuted(a.tables[i], b.tables[i]))
    && (forall i :: 0 <= i < |a.commands| ==> CommandPermuted(a.commands[i], b.commands[i]))
  }

  /** `b` lists what `a` lists, in any order at any level. */
  ghost predicate Reordered(a: Spec, b: Spec) {
    exists m :: Permuted(a, m) && PartsPermuted(m, b)
  }

  lemma SortedBlind<T>(key: T -> Key, s: seq<T>, t: seq<T>)
    requires multiset(s) == multiset(t) && StrictlySorted(key, Sort(key, s))
    ensures Sort(key, t) == Sort(key, s)
  {
    SortStrict(key, s);
    SortBlind(key, s, t);
  }

  lemma MapKeepsOrder<T>(key: T -> Key, f: T -> T, s: seq<T>)
    requires forall x :: key(f(x)) == key(x)
    ensures StrictlySorted(key, Map(f, s)) <==> StrictlySorted(key, s)
  {
    assert forall i :: 0 <= i < |s| ==> key(Map(f, s)[i]) == key(s[i]);
  }

  lemma {:induction false} MapInsert<T>(key: T -> Key, f: T -> T, x: T, s: seq<T>)
    requires forall y :: key(f(y)) == key(y)
    ensures Map(f, Insert(key, x, s)) == Insert(key, f(x), Map(f, s))
  {
    if s == [] {
      assert Map(f, [x]) == [f(x)];
    } else if KeyLeq(key(x), key(s[0])) {
      assert Map(f, [x] + s) == [f(x)] + Map(f, s);
    } else {
      MapInsert(key, f, x, s[1..]);
      assert Map(f, s)[1..] == Map(f, s[1..]);
      assert Map(f, Insert(key, x, s)) == [f(s[0])] + Map(f, Insert(key, x, s[1..]));
    }
  }

  /** Sorting by identity commutes with any change that leaves identities alone. */
  lemma {:induction false} MapSort<T>(key: T -> Key, f: T -> T, s: seq<T>)
    requires forall y :: key(f(y)) == key(y)
    ensures Map(f, Sort(key, s)) == Sort(key, Map(f, s))
  {
    if s != [] {
      MapSort(key, f, s[1..]);
      MapInsert(key, f, s[0], Sort(key, s[1..]));
      assert Map(f, s)[1..] == Map(f, s[1..]);
    }
  }

  lemma KeysKept()
    ensures forall t :: TableKey(WithSortedFields(t)) == TableKey(t)
    ensures forall c :: CommandKey(WithSortedParts(c)) == CommandKey(c)
  {
  }

  lemma PermutedSame(a: Spec, b: Spec)
    requires Permuted(a, b) && Checked(Arranged(a))
    ensures Arranged(b) == Arranged(a)
  {
    hide Checked, Sort, StrictlySorted;
    CheckedSorted(Arranged(a));
    KeysKept();
    MapKeepsOrder(TableKey, WithSortedFields, Sort(TableKey, a.tables));
    MapKeepsOrder(CommandKey, WithSortedParts, Sort(CommandKey, a.commands));
    SortedBlind(TableKey, a.tables, b.tables);
    SortedBlind(CaptureKey, a.captures, b.captures);
    SortedBlind(PolicyKey, a.policies, b.policies);
    SortedBlind(ConstraintKey, a.constraints, b.constraints);
    SortedBlind(MachineKey, a.machines, b.machines);
    SortedBlind(CommandKey, a.commands, b.commands);
  }

  /** Every listed table and command appears in the arrangement with its own parts sorted. */
  lemma ArrangedParts(a: Spec)
    requires Checked(Arranged(a))
    ensures forall i :: 0 <= i < |a.tables| ==> StrictlySorted(FieldKey, Sort(FieldKey, a.tables[i].fields))
    ensures forall i :: 0 <= i < |a.commands| ==>
              && StrictlySorted(InputKey, Sort(InputKey, a.commands[i].inputs))
              && StrictlySorted(GuardKey, Sort(GuardKey, a.commands[i].guards))
              && StrictlySorted(EventKey, Sort(EventKey, a.commands[i].events))
  {
    hide Checked, Sort, StrictlySorted;
    CheckedSorted(Arranged(a));
    var tables, commands := Sort(TableKey, a.tables), Sort(CommandKey, a.commands);
    SortPermutes(TableKey, a.tables);
    SameElements(a.tables, tables);
    SortPermutes(CommandKey, a.commands);
    SameElements(a.commands, commands);
    forall i | 0 <= i < |a.tables|
      ensures StrictlySorted(FieldKey, Sort(FieldKey, a.tables[i].fields))
    {
      assert a.tables[i] in tables;
      var j :| 0 <= j < |tables| && tables[j] == a.tables[i];
      assert Arranged(a).tables[j] == WithSortedFields(tables[j]);
    }
    forall i | 0 <= i < |a.commands|
      ensures StrictlySorted(InputKey, Sort(InputKey, a.commands[i].inputs))
              && StrictlySorted(GuardKey, Sort(GuardKey, a.commands[i].guards))
              && StrictlySorted(EventKey, Sort(EventKey, a.commands[i].events))
    {
      assert a.commands[i] in commands;
      var j :| 0 <= j < |commands| && commands[j] == a.commands[i];
      assert Arranged(a).commands[j] == WithSortedParts(commands[j]);
    }
  }

  lemma PartsSame(a: Spec, b: Spec)
    requires PartsPermuted(a, b) && Checked(Arranged(a))
    ensures Arranged(b) == Arranged(a)
  {
    hide Checked, Sort, StrictlySorted;
    ArrangedParts(a);
    KeysKept();
    forall i | 0 <= i < |a.tables|
      ensures WithSortedFields(a.tables[i]) == WithSortedFields(b.tables[i])
    {
      assert TablePermuted(a.tables[i], b.tables[i]);
      SortedBlind(FieldKey, a.tables[i].fields, b.tables[i].fields);
    }
    forall i | 0 <= i < |a.commands|
      ensures WithSortedParts(a.commands[i]) == WithSortedParts(b.commands[i])
    {
      assert CommandPermuted(a.commands[i], b.commands[i]);
      SortedBlind(InputKey, a.commands[i].inputs, b.commands[i].inputs);
      SortedBlind(GuardKey, a.commands[i].guards, b.commands[i].guards);
      SortedBlind(EventKey, a.commands[i].events, b.commands[i].events);
    }
    assert Map(WithSortedFields, a.tables) == Map(WithSortedFields, b.tables);
    assert Map(WithSortedParts, a.commands) == Map(WithSortedParts, b.commands);
    MapSort(TableKey, WithSortedFields, a.tables);
    MapSort(TableKey, WithSortedFields, b.tables);
    MapSort(CommandKey, WithSortedParts, a.commands);
    MapSort(CommandKey, WithSortedParts, b.commands);
  }

  lemma PartsSymmetric(a: Spec, b: Spec)
    requires PartsPermuted(a, b)
    ensures PartsPermuted(b, a)
  {
    assert forall i :: 0 <= i < |a.tables| ==> TablePermuted(a.tables[i], b.tables[i]);
    assert forall i :: 0 <= i < |a.commands| ==> CommandPermuted(a.commands[i], b.commands[i]);
  }

  /** The order in which a definition lists its parts decides neither acceptance nor the compiled definition. */
  lemma CompileBlind(a: Spec, b: Spec)
    requires Reordered(a, b)
    ensures Compiled(a) == Compiled(b)
  {
    hide Checked, Arranged, Permuted, PartsPermuted;
    var m :| Permuted(a, m) && PartsPermuted(m, b);
    PermutedSymmetric(a, m);
    PartsSymmetric(m, b);
    if Checked(Arranged(a)) { PermutedSame(a, m); }
    if Checked(Arranged(m)) { PermutedSame(m, a); PartsSame(m, b); }
    if Checked(Arranged(b)) { PartsSame(b, m); }
  }

  lemma PermutedSymmetric(a: Spec, b: Spec)
    requires Permuted(a, b)
    ensures Permuted(b, a)
  {
  }

  // ------------------------------------------------------------ the compiler

  function IdsOf(fields: seq<Field>): set<FieldId> {
    set i | 0 <= i < |fields| :: fields[i].id
  }

  function AllIds(tables: seq<Table>): set<FieldId> {
    set t, f | t in tables && f in t.fields :: f.id
  }

  function TableIds(tables: seq<Table>): set<TableId> {
    set i | 0 <= i < |tables| :: tables[i].id
  }

  predicate OwnIds(t: Table, used: set<FieldId>) {
    |t.fields| <= MAX_FIELDS_PER_TABLE && DistinctKeys(FieldKey, t.fields) && IdsOf(t.fields) !! used
  }

  /** Field identities are unique across the definition: no repeat in a table, none already used. */
  method ClaimFields(fields: seq<Field>, used: set<FieldId>) returns (r: Option<set<FieldId>>)
    ensures r == if DistinctKeys(FieldKey, fields) && IdsOf(fields) !! used then Some(used + IdsOf(fields)) else None
  {
    var ids := used;
    for i := 0 to |fields|
      invariant ids == used + IdsOf(fields[..i])
      invariant DistinctKeys(FieldKey, fields[..i]) && IdsOf(fields[..i]) !! used
    {
      var id := fields[i].id;
      IdsStep(fields, i);
      if id in ids {
        return None;
      }
      ids := ids + {id};
    }
    assert fields[..|fields|] == fields;
    r := Some(ids);
  }

  lemma IdsStep(fields: seq<Field>, i: nat)
    requires i < |fields|
    ensures IdsOf(fields[..i + 1]) == IdsOf(fields[..i]) + {fields[i].id}
    ensures fields[i].id in IdsOf(fields[..i]) ==> !DistinctKeys(FieldKey, fields)
    ensures fields[i].id in IdsOf(fields)
    ensures DistinctKeys(FieldKey, fields[..i]) && fields[i].id !in IdsOf(fields[..i]) ==> DistinctKeys(FieldKey, fields[..i + 1])
  {
    var next, front := fields[..i + 1], fields[..i];
    assert next[..i] == front && next[i] == fields[i];
    assert forall j :: 0 <= j < i ==> next[j] == front[j] == fields[j];
    if fields[i].id in IdsOf(front) {
      var j :| 0 <= j < i && front[j].id == fields[i].id;
      assert FieldKey(fields[j]) == FieldKey(fields[i]);
    } else {
      forall j | 0 <= j < i
        ensures front[j].id != next[i].id
      {
        assert front[j].id in IdsOf(front);
      }
    }
  }

  /** Tables arrive sorted; every identity is claimed once, within the limits. */
  predicate Claimed(tables: seq<Table>) {
    && DistinctKeys(TableKey, tables)
    && FieldCount(tables) <= MAX_FIELDS
    && (forall i :: 0 <= i < |tables| ==> OwnIds(tables[i], AllIds(tables[..i])))
  }

  lemma {:induction false} FieldCountAppend(tables: seq<Table>, t: Table)
    ensures FieldCount(tables + [t]) == FieldCount(tables) + |t.fields|
  {
    if tables == [] {
      assert tables + [t] == [t];
    } else {
      assert (tables + [t])[1..] == tables[1..] + [t];
      FieldCountAppend(tables[1..], t);
    }
  }

  lemma {:induction false} FieldCountPrefix(tables: seq<Table>, i: nat)
    requires i <= |tables|
    ensures FieldCount(tables[..i]) <= FieldCount(tables)
    decreases |tables|
  {
    if i < |tables| {
      var n := |tables| - 1;
      FieldCountAppend(tables[..n], tables[n]);
      assert tables == tables[..n] + [tables[n]];
      assert tables[..n][..i] == tables[..i];
      FieldCountPrefix(tables[..n], i);
    } else {
      assert tables[..i] == tables;
    }
  }

  lemma AllIdsStep(tables: seq<Table>, i: nat)
    requires i < |tables|
    ensures AllIds(tables[..i + 1]) == AllIds(tables[..i]) + IdsOf(tables[i].fields)
    ensures TableIds(tables[..i + 1]) == TableIds(tables[..i]) + {tables[i].id}
  {
    var next, front := tables[..i + 1], tables[..i];
    assert next == front + [tables[i]];
    forall id
      ensures id in AllIds(next) <==> id in AllIds(front) || id in IdsOf(tables[i].fields)
    {
      if id in IdsOf(tables[i].fields) {
        var j :| 0 <= j < |tables[i].fields| && tables[i].fields[j].id == id;
        assert tables[i] in next && tables[i].fields[j] in tables[i].fields;
      }
    }
    assert forall j :: 0 <= j < i ==> next[j] == front[j];
  }

  /** Claiming identities one table after the other is what the fitting of tables asks, references apart. */
  lemma ClaimedFits(tables: seq<Table>)
    requires Sorted(TableKey, tables) && |tables| <= MAX_TABLES && forall t :: t in tables ==> Sorted(FieldKey, t.fields)
    ensures TablesFit(tables) <==> Claimed(tables) && ReferencesKnown(tables)
  {
    hide FieldCount, OwnIds;
    SortedStrict(TableKey, tables);
    if Claimed(tables) {
      forall t | t in tables
        ensures |t.fields| <= MAX_FIELDS_PER_TABLE && StrictlySorted(FieldKey, t.fields)
      {
        var i :| 0 <= i < |tables| && tables[i] == t;
        OwnIdsMeans(tables[i], AllIds(tables[..i]));
        SortedStrict(FieldKey, t.fields);
      }
      forall t, u, f, g | t in tables && u in tables && t.id != u.id && f in t.fields && g in u.fields
        ensures f.id != g.id
      {
        var i :| 0 <= i < |tables| && tables[i] == t;
        var j :| 0 <= j < |tables| && tables[j] == u;
        OwnIdsMeans(tables[i], AllIds(tables[..i]));
        OwnIdsMeans(tables[j], AllIds(tables[..j]));
        if i < j { UsedBefore(tables, i, j, f); } else { UsedBefore(tables, j, i, g); }
      }
    }
    if TablesFit(tables) {
      forall i | 0 <= i < |tables|
        ensures OwnIds(tables[i], AllIds(tables[..i]))
      {
        FitsOwn(tables, i);
      }
    }
  }

  lemma OwnIdsMeans(t: Table, used: set<FieldId>)
    ensures OwnIds(t, used) ==>
              |t.fields| <= MAX_FIELDS_PER_TABLE && DistinctKeys(FieldKey, t.fields) && forall f :: f in t.fields ==> f.id !in used
  {
    forall f | f in t.fields
      ensures f.id in IdsOf(t.fields)
    {
      var i :| 0 <= i < |t.fields| && t.fields[i] == f;
    }
  }

  lemma UsedBefore(tables: seq<Table>, i: nat, j: nat, f: Field)
    requires i < j < |tables| && f in tables[i].fields
    ensures f.id in AllIds(tables[..j])
  {
    assert tables[..j][i] == tables[i];
  }

  lemma FitsOwn(tables: seq<Table>, i: nat)
    requires TablesFit(tables) && i < |tables|
    ensures OwnIds(tables[i], AllIds(tables[..i]))
  {
    hide FieldCount, Sorted, IdsOf;
    var t := tables[i];
    assert t in tables;
    SortedStrict(FieldKey, t.fields);
    forall u, g | u in tables[..i] && g in u.fields
      ensures g.id !in IdsOf(t.fields)
    {
      var j :| 0 <= j < i && tables[..i][j] == u;
      assert KeyLess(TableKey(tables[j]), TableKey(tables[i]));
      assert u in tables && u.id != t.id;
      NotAmong(t.fields, g.id);
    }
  }

  lemma NotAmong(fields: seq<Field>, id: FieldId)
    requires forall f :: f in fields ==> f.id != id
    ensures id !in IdsOf(fields)
  {
  }

  /** In a sorted list, distinct identities and strict order are the same thing. */
  lemma SortedStrict<T>(key: T -> Key, s: seq<T>)
    ensures StrictlySorted(key, s) ==> DistinctKeys(key, s) && Sorted(key, s)
    ensures Sorted(key, s) && DistinctKeys(key, s) ==> StrictlySorted(key, s)
  {
    if Sorted(key, s) && DistinctKeys(key, s) {
      assert forall i, j :: 0 <= i < j < |s| ==> KeyLeq(key(s[i]), key(s[j])) && key(s[i]) != key(s[j]);
    }
    if StrictlySorted(key, s) {
      assert forall i, j :: 0 <= i < j < |s| ==> KeyLess(key(s[i]), key(s[j]));
    }
  }

  predicate ReferencesKnown(tables: seq<Table>) {
    forall t, f :: t in tables && f in t.fields && f.fieldType.RefType? ==> FindTable(tables, f.fieldType.target).Some?
  }

  lemma SortedTables(tables: seq<Table>)
    ensures var all := Map(WithSortedFields, Sort(TableKey, tables));
            Sorted(TableKey, all) && forall t :: t in all ==> Sorted(FieldKey, t.fields)
  {
    var sorted := Sort(TableKey, tables);
    var all := Map(WithSortedFields, sorted);
    SortSorts(TableKey, tables);
    assert forall i :: 0 <= i < |sorted| ==> TableKey(all[i]) == TableKey(sorted[i]);
    forall t | t in all
      ensures Sorted(FieldKey, t.fields)
    {
      var i :| 0 <= i < |all| && all[i] == t;
      SortSorts(FieldKey, sorted[i].fields);
    }
  }

  lemma ClaimStep(tables: seq<Table>, i: nat)
    requires i < |tables| && Claimed(tables[..i])
    ensures Claimed(tables[..i + 1]) <==>
              && tables[i].id !in TableIds(tables[..i])
              && FieldCount(tables[..i]) + |tables[i].fields| <= MAX_FIELDS
              && OwnIds(tables[i], AllIds(tables[..i]))
    ensures FieldCount(tables[..i + 1]) == FieldCount(tables[..i]) + |tables[i].fields|
    ensures Claimed(tables) ==> Claimed(tables[..i + 1])
  {
    hide OwnIds, FieldCount, AllIds;
    var next, front := tables[..i + 1], tables[..i];
    assert next == front + [tables[i]] && next[..i] == front && next[i] == tables[i];
    FieldCountAppend(front, tables[i]);
    FieldCountPrefix(tables, i + 1);
    assert forall j :: 0 <= j < i ==> next[j] == front[j] && next[..j] == front[..j];
    assert forall j :: 0 <= j <= i ==> next[j] == tables[j] && next[..j] == tables[..j];
    if tables[i].id in TableIds(front) {
      var j :| 0 <= j < i && front[j].id == tables[i].id;
      assert TableKey(next[j]) == TableKey(next[i]);
    } else {
      forall j | 0 <= j < i
        ensures TableKey(next[j]) != TableKey(next[i])
      {
        assert front[j].id in TableIds(front);
      }
    }
  }

  /** Sorts the fields of each table in place and claims every identity on the way. */
  method ClaimTables(sorted: seq<Table>) returns (r: Option<seq<Table>>)
    ensures var all := Map(WithSortedFields, sorted);
            r == if Claimed(all) then Some(all) else None
  {
    hide OwnIds, FieldCount, AllIds, IdsOf, Claimed, Sort, TableIds;
    var definition := sorted;
    ghost var all := Map(WithSortedFields, sorted);
    var ids: set<TableId>, fieldIds: set<FieldId>, count := {}, {}, 0;
    NothingClaimed(all);
    for i := 0 to |definition|
      invariant |definition| == |all|
      invariant forall j :: 0 <= j < i ==> definition[j] == all[j]
      invariant forall j :: i <= j < |all| ==> definition[j] == sorted[j]
      invariant Claimed(all[..i])
      invariant ids == TableIds(all[..i]) && fieldIds == AllIds(all[..i]) && count == FieldCount(all[..i])
    {
      var table := definition[i];
      ClaimStep(all, i);
      AllIdsStep(all, i);
      OwnIdsIs(all[i], fieldIds);
      SortLength(FieldKey, table.fields);
      if table.id in ids {
        return None;
      }
      ids := ids + {table.id};
      count := count + |table.fields|;
      if |table.fields| > MAX_FIELDS_PER_TABLE || count > MAX_FIELDS {
        return None;
      }
      definition := definition[i := table.(fields := Sort(FieldKey, table.fields))];
      var claimed := ClaimFields(definition[i].fields, fieldIds);
      match claimed {
        case None => return None;
        case Some(more) => fieldIds := more;
      }
    }
    assert all[..|all|] == all && definition == all;
    r := Some(definition);
  }

  method CheckReferences(tables: seq<Table>) returns (ok: bool)
    ensures ok <==> ReferencesKnown(tables)
  {
    var ids := TableIds(tables);
    for i := 0 to |tables|
      invariant forall j, k :: 0 <= j < i && 0 <= k < |tables[j].fields| && tables[j].fields[k].fieldType.RefType?
                               ==> tables[j].fields[k].fieldType.target in ids
    {
      var fields := tables[i].fields;
      for k := 0 to |fields|
        invariant forall m :: 0 <= m < k && fields[m].fieldType.RefType? ==> fields[m].fieldType.target in ids
      {
        if fields[k].fieldType.RefType? && fields[k].fieldType.target !in ids {
          TableFound(tables, fields[k].fieldType.target);
          assert tables[i] in tables && fields[k] in fields;
          return false;
        }
      }
    }
    forall t, f | t in tables && f in t.fields && f.fieldType.RefType?
      ensures FindTable(tables, f.fieldType.target).Some?
    {
      var j :| 0 <= j < |tables| && tables[j] == t;
      var k :| 0 <= k < |tables[j].fields| && tables[j].fields[k] == f;
      TableFound(tables, f.fieldType.target);
    }
    ok := true;
  }

  method CompileTables(tables: seq<Table>) returns (r: Option<seq<Table>>)
    ensures var all := Map(WithSortedFields, Sort(TableKey, tables));
            r == if TablesFit(all) then Some(all) else None
  {
    hide Claimed, TablesFit, Sort, ReferencesKnown, Sorted;
    ghost var all := Map(WithSortedFields, Sort(TableKey, tables));
    SortedTables(tables);
    SortLength(TableKey, tables);
    if |tables| > MAX_TABLES {
      TooMany(all);
      return None;
    }
    ClaimedFits(all);
    var claimed := ClaimTables(Sort(TableKey, tables));
    match claimed {
      case None => return None;
      case Some(definition) =>
        var known := CheckReferences(definition);
        r := if known then Some(definition) else None;
    }
  }

  lemma TooMany(tables: seq<Table>)
    requires |tables| > MAX_TABLES
    ensures !TablesFit(tables)
  {
  }

  lemma NothingClaimed(tables: seq<Table>)
    ensures Claimed(tables[..0]) && TableIds(tables[..0]) == {} && AllIds(tables[..0]) == {} && FieldCount(tables[..0]) == 0
  {
  }

  lemma OwnIdsIs(t: Table, used: set<FieldId>)
    ensures OwnIds(t, used) <==>
              |t.fields| <= MAX_FIELDS_PER_TABLE && DistinctKeys(FieldKey, t.fields) && IdsOf(t.fields) !! used
  {
  }

  lemma TableFound(tables: seq<Table>, id: TableId)
    ensures FindTable(tables, id).Some? <==> id in TableIds(tables)
  {
    if FindTable(tables, id).Some? {
      var i :| 0 <= i < |tables| && tables[i] == FindTable(tables, id).value;
      assert tables[i].id in TableIds(tables);
    }
  }

  lemma SortLength<T>(key: T -> Key, s: seq<T>)
    ensures |Sort(key, s)| == |s|
  {
    SortPermutes(key, s);
    SameElements(s, Sort(key, s));
  }

  // ------------------------------------------------------------ the other lists

  lemma KeyStep<T>(key: T -> Key, s: seq<T>, i: nat, seen: set<Key>)
    requires i < |s| && DistinctKeys(key, s[..i]) && seen == KeySet(key, s[..i])
    ensures KeySet(key, s[..i + 1]) == seen + {key(s[i])}
    ensures key(s[i]) in seen ==> !DistinctKeys(key, s)
    ensures key(s[i]) !in seen ==> DistinctKeys(key, s[..i + 1])
  {
    var next, front := s[..i + 1], s[..i];
    assert next[..i] == front && next[i] == s[i];
    assert forall j :: 0 <= j < i ==> next[j] == front[j] == s[j];
    if key(s[i]) in seen {
      var j :| 0 <= j < i && key(front[j]) == key(s[i]);
      assert key(s[j]) == key(s[i]);
    } else {
      forall j | 0 <= j < i
        ensures key(next[j]) != key(next[i])
      {
        assert key(front[j]) in KeySet(key, front);
      }
    }
  }

  function KeySet<T>(key: T -> Key, s: seq<T>): set<Key> {
    set i | 0 <= i < |s| :: key(s[i])
  }

  predicate ConstraintFits(spec: Spec, c: FieldConstraint) {
    var t := TypeOf(spec, c.table, c.field);
    t.Some? && SupportsType(c.constraint, t.value)
  }

  method CheckConstraints(spec: Spec) returns (ok: bool)
    requires Sorted(ConstraintKey, spec.constraints)
    ensures ok <==> ConstraintsChecked(spec)
  {
    hide Sorted, StrictlySorted, DistinctKeys, KeySet;
    SortedStrict(ConstraintKey, spec.constraints);
    if |spec.constraints| > MAX_CONSTRAINTS {
      return false;
    }
    var identities: set<Key> := {};
    NoKeysYet(ConstraintKey, spec.constraints);
    for i := 0 to |spec.constraints|
      invariant identities == KeySet(ConstraintKey, spec.constraints[..i])
      invariant DistinctKeys(ConstraintKey, spec.constraints[..i])
      invariant forall j :: 0 <= j < i ==> ConstraintFits(spec, spec.constraints[j])
    {
      var rule := spec.constraints[i];
      KeyStep(ConstraintKey, spec.constraints, i, identities);
      if ConstraintKey(rule) in identities || !ConstraintFits(spec, rule) {
        assert rule in spec.constraints;
        return false;
      }
      identities := identities + {ConstraintKey(rule)};
    }
    assert spec.constraints[..|spec.constraints|] == spec.constraints;
    ok := true;
  }

  lemma NoKeysYet<T>(key: T -> Key, s: seq<T>)
    ensures KeySet(key, s[..0]) == {} && DistinctKeys(key, s[..0])
  {
  }

  method CheckCaptures(spec: Spec) returns (ok: bool)
    requires Sorted(CaptureKey, spec.captures)
    ensures ok <==> CapturesChecked(spec)
  {
    hide Sorted, StrictlySorted, DistinctKeys, KeySet, IsCaptured;
    SortedStrict(CaptureKey, spec.captures);
    if |spec.captures| > MAX_FIELDS {
      return false;
    }
    var captured: set<Key> := {};
    NoKeysYet(CaptureKey, spec.captures);
    for i := 0 to |spec.captures|
      invariant captured == KeySet(CaptureKey, spec.captures[..i])
      invariant DistinctKeys(CaptureKey, spec.captures[..i])
      invariant forall j :: 0 <= j < i ==> CaptureChecked(spec, spec.captures[j])
    {
      var rule := spec.captures[i];
      KeyStep(CaptureKey, spec.captures, i, captured);
      assert rule in spec.captures;
      if CaptureKey(rule) in captured {
        return false;
      }
      captured := captured + {CaptureKey(rule)};
      var reference := TypeOf(spec, rule.lineTable, rule.productRef);
      if reference.None? || !reference.value.RefType? {
        return false;
      }
      var target := reference.value.target;
      if IsCaptured(spec, target, rule.productPrice) {
        return false;
      }
      if TypeOf(spec, target, rule.productPrice) != Some(MoneyType)
         || TypeOf(spec, rule.lineTable, rule.capturedPrice) != Some(MoneyType) {
        return false;
      }
    }
    assert spec.captures[..|spec.captures|] == spec.captures;
    ok := true;
  }

  function PolicyTable(p: Policy): Key { Key(0, p.table) }
  function MachineTable(m: StateMachine): Key { Key(0, m.table) }

  /** One entry for each table: equal tables mean the same entry. */
  lemma OnePerTable<T>(table: T -> Key, s: seq<T>)
    ensures DistinctKeys(table, s) ==> forall x, y :: x in s && y in s && table(x) == table(y) ==> x == y
  {
    if DistinctKeys(table, s) {
      forall x, y | x in s && y in s && table(x) == table(y)
        ensures x == y
      {
        var i :| 0 <= i < |s| && s[i] == x;
        var j :| 0 <= j < |s| && s[j] == y;
      }
    }
  }

  lemma DistinctFrom<T>(key: T -> Key, table: T -> Key, s: seq<T>)
    requires DistinctKeys(key, s) && forall x, y :: x in s && y in s && table(x) == table(y) ==> x == y
    ensures DistinctKeys(table, s)
  {
    forall i, j | 0 <= i < j < |s|
      ensures table(s[i]) != table(s[j])
    {
      assert s[i] in s && s[j] in s && key(s[i]) != key(s[j]);
    }
  }

  method CheckPolicies(spec: Spec) returns (ok: bool)
    requires Sorted(PolicyKey, spec.policies)
    ensures ok <==> PoliciesChecked(spec)
  {
    hide Sorted, StrictlySorted, DistinctKeys, KeySet, PolicyChecked;
    var rules := spec.policies;
    PoliciesMean(spec);
    if |rules| > MAX_POLICIES {
      return false;
    }
    var ruleIds: set<Key>, policyTables: set<Key> := {}, {};
    NoKeysYet(PolicyKey, rules);
    NoKeysYet(PolicyTable, rules);
    for i := 0 to |rules|
      invariant ruleIds == KeySet(PolicyKey, rules[..i]) && DistinctKeys(PolicyKey, rules[..i])
      invariant policyTables == KeySet(PolicyTable, rules[..i]) && DistinctKeys(PolicyTable, rules[..i])
      invariant forall j :: 0 <= j < i ==> PolicyChecked(spec, rules[j])
    {
      KeyStep(PolicyKey, rules, i, ruleIds);
      KeyStep(PolicyTable, rules, i, policyTables);
      if PolicyKey(rules[i]) in ruleIds || PolicyTable(rules[i]) in policyTables || !PolicyChecked(spec, rules[i]) {
        return false;
      }
      ruleIds := ruleIds + {PolicyKey(rules[i])};
      policyTables := policyTables + {PolicyTable(rules[i])};
    }
    assert rules[..|rules|] == rules;
    ok := true;
  }

  lemma PoliciesMean(spec: Spec)
    requires Sorted(PolicyKey, spec.policies)
    ensures PoliciesChecked(spec) <==>
              && |spec.policies| <= MAX_POLICIES
              && DistinctKeys(PolicyKey, spec.policies) && DistinctKeys(PolicyTable, spec.policies)
              && forall j :: 0 <= j < |spec.policies| ==> PolicyChecked(spec, spec.policies[j])
  {
    hide PolicyChecked, DistinctKeys, StrictlySorted, Sorted;
    SortedStrict(PolicyKey, spec.policies);
    OnePerTable(PolicyTable, spec.policies);
    if PoliciesChecked(spec) {
      DistinctFrom(PolicyKey, PolicyTable, spec.policies);
    }
  }

  method CheckMachines(spec: Spec) returns (ok: bool)
    requires Sorted(MachineKey, spec.machines)
    ensures ok <==> MachinesChecked(spec)
  {
    hide Sorted, StrictlySorted, DistinctKeys, KeySet, MachineChecked;
    var machines := spec.machines;
    MachinesMean(spec);
    if |machines| > MAX_STATE_MACHINES {
      return false;
    }
    var machineIds: set<Key>, machineTables: set<Key> := {}, {};
    NoKeysYet(MachineKey, machines);
    NoKeysYet(MachineTable, machines);
    for i := 0 to |machines|
      invariant machineIds == KeySet(MachineKey, machines[..i]) && DistinctKeys(MachineKey, machines[..i])
      invariant machineTables == KeySet(MachineTable, machines[..i]) && DistinctKeys(MachineTable, machines[..i])
      invariant forall j :: 0 <= j < i ==> MachineChecked(spec, machines[j])
    {
      KeyStep(MachineKey, machines, i, machineIds);
      KeyStep(MachineTable, machines, i, machineTables);
      if MachineKey(machines[i]) in machineIds || MachineTable(machines[i]) in machineTables || !MachineChecked(spec, machines[i]) {
        return false;
      }
      machineIds := machineIds + {MachineKey(machines[i])};
      machineTables := machineTables + {MachineTable(machines[i])};
    }
    assert machines[..|machines|] == machines;
    ok := true;
  }

  lemma MachinesMean(spec: Spec)
    requires Sorted(MachineKey, spec.machines)
    ensures MachinesChecked(spec) <==>
              && |spec.machines| <= MAX_STATE_MACHINES
              && DistinctKeys(MachineKey, spec.machines) && DistinctKeys(MachineTable, spec.machines)
              && forall j :: 0 <= j < |spec.machines| ==> MachineChecked(spec, spec.machines[j])
  {
    hide MachineChecked, DistinctKeys, StrictlySorted, Sorted;
    SortedStrict(MachineKey, spec.machines);
    OnePerTable(MachineTable, spec.machines);
    if MachinesChecked(spec) {
      DistinctFrom(MachineKey, MachineTable, spec.machines);
    }
  }

  method CheckCommands(spec: Spec) returns (ok: bool)
    requires Sorted(CommandKey, spec.commands)
    ensures ok <==> CommandsChecked(spec)
  {
    hide Sorted, StrictlySorted, DistinctKeys, KeySet, CommandChecked;
    SortedStrict(CommandKey, spec.commands);
    if |spec.commands| > MAX_COMMANDS {
      return false;
    }
    var ids: set<Key> := {};
    NoKeysYet(CommandKey, spec.commands);
    for i := 0 to |spec.commands|
      invariant ids == KeySet(CommandKey, spec.commands[..i])
      invariant DistinctKeys(CommandKey, spec.commands[..i])
      invariant forall j :: 0 <= j < i ==> CommandChecked(spec, spec.commands[j])
    {
      var command := spec.commands[i];
      KeyStep(CommandKey, spec.commands, i, ids);
      if CommandKey(command) in ids || !CommandChecked(spec, command) {
        assert command in spec.commands;
        return false;
      }
      ids := ids + {CommandKey(command)};
    }
    assert spec.commands[..|spec.commands|] == spec.commands;
    ok := true;
  }

  lemma ArrangedSorted(d: Spec)
    ensures Sorted(CaptureKey, Arranged(d).captures) && Sorted(PolicyKey, Arranged(d).policies)
    ensures Sorted(ConstraintKey, Arranged(d).constraints) && Sorted(MachineKey, Arranged(d).machines)
    ensures Sorted(CommandKey, Arranged(d).commands)
  {
    SortSorts(CaptureKey, d.captures);
    SortSorts(PolicyKey, d.policies);
    SortSorts(ConstraintKey, d.constraints);
    SortSorts(MachineKey, d.machines);
    SortSorts(CommandKey, d.commands);
    var sorted := Sort(CommandKey, d.commands);
    assert forall i :: 0 <= i < |sorted| ==> CommandKey(Map(WithSortedParts, sorted)[i]) == CommandKey(sorted[i]);
  }

  lemma VersionKept(d: Spec)
    ensures VersionChecked(Arranged(d)) <==> VersionChecked(d)
  {
    SortLength(ConstraintKey, d.constraints);
    SortLength(MachineKey, d.machines);
    SortLength(CommandKey, d.commands);
  }

  /** `compile`: arranges the definition in place, list by list, and checks each list as its source does. */
  method CompileDefinition(raw: Spec) returns (r: Option<Spec>)
    ensures r == Compiled(raw)
  {
    hide VersionChecked, TablesFit, Sort, Sorted, ConstraintsChecked, CapturesChecked, PoliciesChecked, MachinesChecked,
      CommandsChecked;
    VersionKept(raw);
    if !VersionChecked(raw) {
      return None;
    }
    var definition := raw;
    var tables := CompileTables(definition.tables);
    match tables {
      case None => return None;
      case Some(sorted) => definition := definition.(tables := sorted);
    }
    definition := definition.(captures := Sort(CaptureKey, definition.captures));
    definition := definition.(policies := Sort(PolicyKey, definition.policies));
    definition := definition.(constraints := Sort(ConstraintKey, definition.constraints));
    definition := definition.(machines := Sort(MachineKey, definition.machines));
    var commands := Sort(CommandKey, definition.commands);
    ghost var unsorted := commands;
    for i := 0 to |commands|
      invariant |commands| == |unsorted|
      invariant forall j :: 0 <= j < i ==> commands[j] == WithSortedParts(unsorted[j])
      invariant forall j :: i <= j < |commands| ==> commands[j] == unsorted[j]
    {
      commands := commands[i := WithSortedParts(commands[i])];
    }
    assert commands == Map(WithSortedParts, unsorted);
    definition := definition.(commands := commands);
    assert definition == Arranged(raw);
    ArrangedSorted(raw);
    var constraints := CheckConstraints(definition);
    if !constraints {
      return None;
    }
    var captures := CheckCaptures(definition);
    if !captures {
      return None;
    }
    var policies := CheckPolicies(definition);
    if !policies {
      return None;
    }
    var machines := CheckMachines(definition);
    if !machines {
      return None;
    }
    var declared := CheckCommands(definition);
    r := if declared then Some(definition) else None;
  }
}
