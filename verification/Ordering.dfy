/**
 Python's `sorted` and the orders it is used with: code-point order on strings,
 and the lexicographic order that Python puts on lists.
 */
module Ordering {

  ghost predicate TotalOrder<T(!new)>(leq: (T, T) -> bool) {
    && (forall x :: leq(x, x))
    && (forall x, y :: leq(x, y) || leq(y, x))
    && (forall x, y :: leq(x, y) && leq(y, x) ==> x == y)
    && (forall x, y, z :: leq(x, y) && leq(y, z) ==> leq(x, z))
  }

  ghost predicate SortedBy<T>(leq: (T, T) -> bool, s: seq<T>) {
    forall i, j :: 0 <= i < j < |s| ==> leq(s[i], s[j])
  }

  predicate Distinct<T(==)>(s: seq<T>) {
    forall i, j :: 0 <= i < j < |s| ==> s[i] != s[j]
  }

  function Elements<T>(s: seq<T>): set<T> {
    set x | x in s
  }

  // ---------- sorting ----------

  function Insert<T>(leq: (T, T) -> bool, x: T, s: seq<T>): (r: seq<T>)
    ensures multiset(r) == multiset{x} + multiset(s)
  {
    if s == [] then [x]
    else if leq(x, s[0]) then [x] + s
    else
      assert s == [s[0]] + s[1..];
      [s[0]] + Insert(leq, x, s[1..])
  }

  function Sort<T>(leq: (T, T) -> bool, s: seq<T>): (r: seq<T>)
    ensures multiset(r) == multiset(s)
  {
    if s == [] then []
    else
      assert s == [s[0]] + s[1..];
      Insert(leq, s[0], Sort(leq, s[1..]))
  }

  lemma MultisetMembers<T>(a: seq<T>, b: seq<T>)
    requires multiset(a) == multiset(b)
    ensures |a| == |b|
    ensures forall x :: x in a <==> x in b
    ensures Elements(a) == Elements(b)
    ensures Distinct(a) <==> Distinct(b)
  {
    assert forall x :: x in a <==> x in multiset(a);
    assert forall x :: x in b <==> x in multiset(b);
    assert |multiset(a)| == |a| && |multiset(b)| == |b|;
    DistinctMultiset(a);
    DistinctMultiset(b);
  }

  lemma {:induction false} DistinctMultiset<T>(a: seq<T>)
    ensures Distinct(a) <==> forall x :: x in a ==> multiset(a)[x] == 1
  {
    if a != [] {
      var rest := a[1..];
      assert a == [a[0]] + rest;
      DistinctMultiset(rest);
      assert forall x :: x in a ==> multiset(a)[x] == (if x == a[0] then 1 else 0) + multiset(rest)[x];
      if Distinct(a) {
        assert a[0] !in rest;
        assert multiset(rest)[a[0]] == 0;
        forall x | x in a ensures multiset(a)[x] == 1 {
          if x != a[0] { assert x in rest; }
        }
      }
      if forall x :: x in a ==> multiset(a)[x] == 1 {
        assert multiset(rest)[a[0]] == 0;
        assert a[0] !in rest;
        forall x | x in rest ensures multiset(rest)[x] == 1 {
          assert x in a && x != a[0];
        }
      }
    }
  }

  lemma {:induction false} InsertSorted<T(!new)>(leq: (T, T) -> bool, x: T, s: seq<T>)
    requires TotalOrder(leq) && SortedBy(leq, s)
    ensures SortedBy(leq, Insert(leq, x, s))
  {
    if s != [] && !leq(x, s[0]) {
      InsertSorted(leq, x, s[1..]);
      var tail := Insert(leq, x, s[1..]);
      forall y | y in tail ensures leq(s[0], y) {
        assert y in multiset(tail);
        if y != x { assert y in s[1..]; }
      }
    }
  }

  lemma {:induction false} SortSorts<T(!new)>(leq: (T, T) -> bool, s: seq<T>)
    requires TotalOrder(leq)
    ensures SortedBy(leq, Sort(leq, s))
  {
    if s != [] {
      SortSorts(leq, s[1..]);
      InsertSorted(leq, s[0], Sort(leq, s[1..]));
    }
  }

  /** A sorted list is determined by the bag of its elements. */
  lemma {:induction false} SortedUnique<T(!new)>(leq: (T, T) -> bool, a: seq<T>, b: seq<T>)
    requires TotalOrder(leq) && SortedBy(leq, a) && SortedBy(leq, b)
    requires multiset(a) == multiset(b)
    ensures a == b
  {
    MultisetMembers(a, b);
    if a != [] {
      SortedHead(leq, a, b[0]);
      SortedHead(leq, b, a[0]);
      TailMultiset(a, b);
      SortedUnique(leq, a[1..], b[1..]);
      calc { a; [a[0]] + a[1..]; [b[0]] + b[1..]; b; }
    }
  }

  lemma TailMultiset<T>(a: seq<T>, b: seq<T>)
    requires a != [] && b != [] && a[0] == b[0] && multiset(a) == multiset(b)
    ensures multiset(a[1..]) == multiset(b[1..])
  {
    assert a == [a[0]] + a[1..] && b == [b[0]] + b[1..];
    assert multiset(a[1..]) == multiset(a) - multiset{a[0]};
  }

  lemma SortedHead<T(!new)>(leq: (T, T) -> bool, s: seq<T>, x: T)
    requires TotalOrder(leq) && SortedBy(leq, s) && x in s
    ensures leq(s[0], x)
  {
  }

  /** `sorted` is canonical: two lists sort to the same list exactly when they hold the same elements. */
  lemma {:induction false} SortCanonical<T(!new)>(leq: (T, T) -> bool, a: seq<T>, b: seq<T>)
    requires TotalOrder(leq)
    ensures Sort(leq, a) == Sort(leq, b) <==> multiset(a) == multiset(b)
  {
    SortSorts(leq, a);
    SortSorts(leq, b);
    if multiset(a) == multiset(b) {
      SortedUnique(leq, Sort(leq, a), Sort(leq, b));
    }
  }

  lemma {:induction false} DistinctSameMultiset<T>(a: seq<T>, b: seq<T>)
    requires Distinct(a) && Distinct(b) && Elements(a) == Elements(b)
    ensures multiset(a) == multiset(b)
  {
    DistinctMultiset(a);
    DistinctMultiset(b);
    forall x ensures multiset(a)[x] == multiset(b)[x] {
      assert x in a <==> x in Elements(a);
      assert x in b <==> x in Elements(b);
      if x !in a { assert multiset(a)[x] == 0 == multiset(b)[x]; }
    }
  }

  lemma {:induction false} DistinctSize<T>(a: seq<T>)
    ensures |Elements(a)| <= |a|
    ensures |Elements(a)| == |a| <==> Distinct(a)
  {
    if a != [] {
      var rest := a[1..];
      DistinctSize(rest);
      assert a == [a[0]] + rest;
      assert Elements(a) == {a[0]} + Elements(rest);
      if a[0] in rest {
        assert Elements(a) == Elements(rest);
        var j :| 0 <= j < |rest| && rest[j] == a[0];
        assert a[0] == a[j + 1];
      }
    }
  }

  // ---------- the orders ----------

  /** Python's comparison of two sequences: the first difference decides, a proper prefix is smaller. */
  predicate LexLeq<T(==)>(leq: (T, T) -> bool, a: seq<T>, b: seq<T>) {
    if a == [] then true
    else if b == [] then false
    else if a[0] != b[0] then leq(a[0], b[0])
    else LexLeq(leq, a[1..], b[1..])
  }

  /** The first i elements agree, and there the first list ends or its next element is the smaller one. */
  ghost predicate LexAt<T>(leq: (T, T) -> bool, a: seq<T>, b: seq<T>, i: nat) {
    && i <= |a| && i <= |b| && a[..i] == b[..i]
    && (i == |a| || (i < |b| && a[i] != b[i] && leq(a[i], b[i])))
  }

  lemma {:induction false} LexMeaning<T>(leq: (T, T) -> bool, a: seq<T>, b: seq<T>)
    ensures LexLeq(leq, a, b) <==> exists i: nat :: LexAt(leq, a, b, i)
  {
    if a == [] {
      assert LexAt(leq, a, b, 0);
    } else if b != [] && a[0] == b[0] {
      LexMeaning(leq, a[1..], b[1..]);
      if LexLeq(leq, a, b) {
        var i: nat :| LexAt(leq, a[1..], b[1..], i);
        assert a[..i + 1] == [a[0]] + a[1..][..i] && b[..i + 1] == [b[0]] + b[1..][..i];
        assert LexAt(leq, a, b, i + 1);
      }
      if exists i: nat :: LexAt(leq, a, b, i) {
        var i: nat :| LexAt(leq, a, b, i);
        assert i > 0;
        assert a[1..][..i - 1] == a[..i][1..] && b[1..][..i - 1] == b[..i][1..];
        assert LexAt(leq, a[1..], b[1..], i - 1);
      }
    } else if b != [] && leq(a[0], b[0]) {
      assert LexAt(leq, a, b, 0);
    }
  }

  predicate CharLeq(a: char, b: char) { a <= b }

  predicate StrLeq(a: string, b: string) { LexLeq(CharLeq, a, b) }

  predicate ListLeq(a: seq<string>, b: seq<string>) { LexLeq(StrLeq, a, b) }

  lemma {:induction false} LexReflexive<T(!new)>(leq: (T, T) -> bool, a: seq<T>)
    ensures LexLeq(leq, a, a)
  {
    if a != [] { LexReflexive(leq, a[1..]); }
  }

  lemma {:induction false} LexTotal<T(!new)>(leq: (T, T) -> bool, a: seq<T>, b: seq<T>)
    requires TotalOrder(leq)
    ensures LexLeq(leq, a, b) || LexLeq(leq, b, a)
    ensures LexLeq(leq, a, b) && LexLeq(leq, b, a) ==> a == b
  {
    if a != [] && b != [] && a[0] == b[0] {
      LexTotal(leq, a[1..], b[1..]);
      assert a == [a[0]] + a[1..] && b == [b[0]] + b[1..];
    }
  }

  lemma {:induction false} LexTransitive<T(!new)>(leq: (T, T) -> bool, a: seq<T>, b: seq<T>, c: seq<T>)
    requires TotalOrder(leq)
    requires LexLeq(leq, a, b) && LexLeq(leq, b, c)
    ensures LexLeq(leq, a, c)
  {
    if a != [] && b != [] && c != [] && a[0] == b[0] == c[0] {
      LexTransitive(leq, a[1..], b[1..], c[1..]);
    }
  }

  /** The order on strings is the one by code points. */
  lemma StrMeaning(a: string, b: string)
    ensures StrLeq(a, b) <==> a <= b || exists i :: 0 <= i < |a| && i < |b| && a[..i] == b[..i] && a[i] < b[i]
  {
    LexMeaning(CharLeq, a, b);
    if StrLeq(a, b) {
      var i: nat :| LexAt(CharLeq, a, b, i);
      assert i == |a| ==> a == a[..i];
    }
    if a <= b {
      assert LexAt(CharLeq, a, b, |a|);
    } else if exists i :: 0 <= i < |a| && i < |b| && a[..i] == b[..i] && a[i] < b[i] {
      var i :| 0 <= i < |a| && i < |b| && a[..i] == b[..i] && a[i] < b[i];
      assert LexAt(CharLeq, a, b, i);
    }
  }

  lemma StrOrder()
    ensures TotalOrder(StrLeq)
  {
    forall a: string ensures StrLeq(a, a) { LexReflexive(CharLeq, a); }
    forall a: string, b: string
      ensures StrLeq(a, b) || StrLeq(b, a)
      ensures StrLeq(a, b) && StrLeq(b, a) ==> a == b
    { LexTotal(CharLeq, a, b); }
    forall a: string, b: string, c: string | StrLeq(a, b) && StrLeq(b, c) ensures StrLeq(a, c) {
      LexTransitive(CharLeq, a, b, c);
    }
  }

  lemma ListOrder()
    ensures TotalOrder(ListLeq)
  {
    StrOrder();
    forall a: seq<string> ensures ListLeq(a, a) { LexReflexive(StrLeq, a); }
    forall a: seq<string>, b: seq<string>
      ensures ListLeq(a, b) || ListLeq(b, a)
      ensures ListLeq(a, b) && ListLeq(b, a) ==> a == b
    { LexTotal(StrLeq, a, b); }
    forall a: seq<string>, b: seq<string>, c: seq<string> | ListLeq(a, b) && ListLeq(b, c)
      ensures ListLeq(a, c)
    { LexTransitive(StrLeq, a, b, c); }
  }
}
