/**
 Stable sorting by an identity key.

 Definitions and facts arrive as identity-keyed lists in any order. Every canonical form in the
 kernel is "sort by identity, then insist that identities are distinct", so the facts that make
 such a form canonical are proved once, here.
 */
module Sorting {

  /** A table-qualified identity; a bare identity is qualified by table 0. */
  datatype Key = Key(table: int, id: int)

  predicate KeyLess(a: Key, b: Key) {
    a.table < b.table || (a.table == b.table && a.id < b.id)
  }

  predicate KeyLeq(a: Key, b: Key) {
    a == b || KeyLess(a, b)
  }

  predicate Sorted<T>(key: T -> Key, s: seq<T>) {
    forall i, j :: 0 <= i < j < |s| ==> KeyLeq(key(s[i]), key(s[j]))
  }

  predicate StrictlySorted<T>(key: T -> Key, s: seq<T>) {
    forall i, j :: 0 <= i < j < |s| ==> KeyLess(key(s[i]), key(s[j]))
  }

  predicate DistinctKeys<T>(key: T -> Key, s: seq<T>) {
    forall i, j :: 0 <= i < j < |s| ==> key(s[i]) != key(s[j])
  }

  function Insert<T>(key: T -> Key, x: T, s: seq<T>): seq<T> {
    if s == [] then [x]
    else if KeyLeq(key(x), key(s[0])) then [x] + s
    else [s[0]] + Insert(key, x, s[1..])
  }

  /** The list `sort_by` leaves behind. */
  function Sort<T>(key: T -> Key, s: seq<T>): seq<T> {
    if s == [] then [] else Insert(key, s[0], Sort(key, s[1..]))
  }

  lemma {:induction false} InsertPermutes<T>(key: T -> Key, x: T, s: seq<T>)
    ensures multiset(Insert(key, x, s)) == multiset(s) + multiset{x}
  {
    if s != [] && !KeyLeq(key(x), key(s[0])) {
      InsertPermutes(key, x, s[1..]);
      assert s == [s[0]] + s[1..];
    }
  }

  lemma {:induction false} SortPermutes<T>(key: T -> Key, s: seq<T>)
    ensures multiset(Sort(key, s)) == multiset(s)
  {
    if s != [] {
      SortPermutes(key, s[1..]);
      InsertPermutes(key, s[0], Sort(key, s[1..]));
      assert s == [s[0]] + s[1..];
    }
  }

  lemma {:induction false} InsertSorts<T>(key: T -> Key, x: T, s: seq<T>)
    requires Sorted(key, s)
    ensures Sorted(key, Insert(key, x, s))
  {
    if s != [] && !KeyLeq(key(x), key(s[0])) {
      var rest := Insert(key, x, s[1..]);
      InsertSorts(key, x, s[1..]);
      InsertPermutes(key, x, s[1..]);
      forall j | 0 <= j < |rest|
        ensures KeyLeq(key(s[0]), key(rest[j]))
      {
        assert rest[j] in multiset(rest);
        assert rest[j] == x || rest[j] in s[1..];
      }
    }
  }

  lemma {:induction false} SortSorts<T>(key: T -> Key, s: seq<T>)
    ensures Sorted(key, Sort(key, s))
  {
    if s != [] {
      SortSorts(key, s[1..]);
      InsertSorts(key, s[0], Sort(key, s[1..]));
    }
  }

  lemma SameElements<T>(s: seq<T>, t: seq<T>)
    requires multiset(s) == multiset(t)
    ensures |s| == |t|
    ensures forall x :: x in s <==> x in t
  {
    assert |multiset(s)| == |s| && |multiset(t)| == |t|;
    forall x
      ensures x in s <==> x in t
    {
      assert x in s <==> x in multiset(s);
    }
  }

  lemma SortedHead<T>(key: T -> Key, s: seq<T>, t: seq<T>)
    requires Sorted(key, s) && StrictlySorted(key, t)
    requires s != [] && t != [] && s[0] in t && t[0] in s
    ensures s[0] == t[0]
  {
    var i :| 0 <= i < |t| && t[i] == s[0];
    var j :| 0 <= j < |s| && s[j] == t[0];
    assert KeyLeq(key(s[0]), key(s[j]));
    assert KeyLeq(key(t[0]), key(t[i]));
  }

  /** An order on distinct identities leaves one arrangement: a sorted list is determined by its elements. */
  lemma {:induction false} SortedUnique<T>(key: T -> Key, s: seq<T>, t: seq<T>)
    requires Sorted(key, s) && StrictlySorted(key, t)
    requires multiset(s) == multiset(t)
    ensures s == t
    decreases |s|
  {
    SameElements(s, t);
    if s != [] {
      assert s[0] in s && t[0] in t;
      SortedHead(key, s, t);
      assert s == [s[0]] + s[1..] && t == [t[0]] + t[1..];
      assert multiset(s[1..]) == multiset(s) - multiset{s[0]};
      assert multiset(t[1..]) == multiset(t) - multiset{t[0]};
      SortedUnique(key, s[1..], t[1..]);
    }
  }

  /** Sorting a list that is already canonical changes nothing. */
  lemma SortFixed<T>(key: T -> Key, s: seq<T>)
    requires StrictlySorted(key, s)
    ensures Sort(key, s) == s
  {
    SortSorts(key, s);
    SortPermutes(key, s);
    SortedUnique(key, Sort(key, s), s);
  }

  /** Sorted and distinct is strictly sorted; distinctness survives any rearrangement. */
  lemma SortStrict<T>(key: T -> Key, s: seq<T>)
    ensures StrictlySorted(key, Sort(key, s)) <==> DistinctKeys(key, s)
  {
    var t := Sort(key, s);
    SortSorts(key, s);
    SortPermutes(key, s);
    if DistinctKeys(key, s) {
      DistinctPermutes(key, s, t);
      assert forall i, j :: 0 <= i < j < |t| ==> KeyLeq(key(t[i]), key(t[j])) && key(t[i]) != key(t[j]);
    }
    if StrictlySorted(key, t) {
      assert DistinctKeys(key, t);
      DistinctPermutes(key, t, s);
    }
  }

  lemma {:induction false} DistinctPermutes<T>(key: T -> Key, s: seq<T>, t: seq<T>)
    requires DistinctKeys(key, s) && multiset(s) == multiset(t)
    ensures DistinctKeys(key, t)
  {
    SameElements(s, t);
    forall i, j | 0 <= i < j < |t|
      ensures key(t[i]) != key(t[j])
    {
      if key(t[i]) == key(t[j]) {
        assert t[i] in s && t[j] in s;
        var a :| 0 <= a < |s| && s[a] == t[i];
        var b :| 0 <= b < |s| && s[b] == t[j];
        assert a == b;
        DuplicateCount(t, i, j);
        DistinctCount(key, s, a);
      }
    }
  }

  lemma DuplicateCount<T>(t: seq<T>, i: nat, j: nat)
    requires i < j < |t| && t[i] == t[j]
    ensures multiset(t)[t[i]] >= 2
  {
    assert t == t[..j] + [t[j]] + t[j + 1..];
    assert t[..j][i] in multiset(t[..j]);
  }

  lemma DistinctCount<T>(key: T -> Key, s: seq<T>, a: nat)
    requires DistinctKeys(key, s) && a < |s|
    ensures multiset(s)[s[a]] == 1
  {
    assert s == s[..a] + [s[a]] + s[a + 1..];
    assert s[a] !in s[..a];
    assert s[a] !in s[a + 1..];
    assert s[a] !in multiset(s[..a]) && s[a] !in multiset(s[a + 1..]);
  }

  /** The canonical arrangement does not depend on the order the list arrived in. */
  lemma SortBlind<T>(key: T -> Key, s: seq<T>, t: seq<T>)
    requires multiset(s) == multiset(t)
    ensures DistinctKeys(key, s) <==> DistinctKeys(key, t)
    ensures DistinctKeys(key, s) ==> Sort(key, s) == Sort(key, t)
  {
    if DistinctKeys(key, s) {
      DistinctPermutes(key, s, t);
    }
    if DistinctKeys(key, t) {
      DistinctPermutes(key, t, s);
      SortStrict(key, t);
      SortSorts(key, s);
      SortPermutes(key, s);
      SortPermutes(key, t);
      SortedUnique(key, Sort(key, s), Sort(key, t));
    }
  }

  // ------------------------------------------------------------ least elements

  lemma SomeElement<T>(s: set<T>) returns (x: T)
    requires s != {}
    ensures x in s
  {
    x :| x in s;
  }

  lemma {:induction false} SmallestExists(s: set<int>)
    requires s != {}
    ensures exists x :: x in s && forall y :: y in s ==> x <= y
  {
    var x := SomeElement(s);
    if s == {x} {
      assert x in s && forall y :: y in s ==> x <= y;
    } else {
      assert s - {x} != {};
      SmallestExists(s - {x});
      var m :| m in s - {x} && forall y :: y in s - {x} ==> m <= y;
      var least := if x <= m then x else m;
      assert forall y :: y in s ==> y == x || y in s - {x};
      assert least in s && forall y :: y in s ==> least <= y;
    }
  }

  function Smallest(s: set<int>): (x: int)
    requires s != {}
    ensures x in s && forall y :: y in s ==> x <= y
  {
    SmallestExists(s);
    var x :| x in s && forall y :: y in s ==> x <= y;
    x
  }
}
