/**
 * Python's ordering of strings (code point by code point), the built-in
 * `sorted` modelled as an insertion sort over any total preorder, and the
 * facts that make "sort both sides and compare" a permutation test.
 */
module Ordering {

  /** Python's `a <= b` on strings. */
  predicate StrLeq(a: string, b: string) decreases |a| {
    a == [] || (b != [] && (a[0] < b[0] || (a[0] == b[0] && StrLeq(a[1..], b[1..]))))
  }

  lemma {:induction false} StrLeqAntisymmetric(a: string, b: string)
    requires StrLeq(a, b) && StrLeq(b, a)
    ensures a == b
    decreases |a|
  {
    if a != [] && b != [] {
      StrLeqAntisymmetric(a[1..], b[1..]);
      assert a == [a[0]] + a[1..] && b == [b[0]] + b[1..];
    }
  }

  lemma {:induction false} StrLeqTransitive(a: string, b: string, c: string)
    requires StrLeq(a, b) && StrLeq(b, c)
    ensures StrLeq(a, c)
    decreases |a|
  {
    if a != [] && a[0] == b[0] && b[0] == c[0] {
      StrLeqTransitive(a[1..], b[1..], c[1..]);
    }
  }

  lemma {:induction false} StrLeqTotal(a: string, b: string)
    ensures StrLeq(a, b) || StrLeq(b, a)
    decreases |a|
  {
    if a != [] && b != [] && a[0] == b[0] {
      StrLeqTotal(a[1..], b[1..]);
    }
  }

  /** `leq` is transitive and total: the orders `sorted` accepts as keys. */
  ghost predicate TotalPreorder<T(!new)>(leq: (T, T) -> bool) {
    && (forall x, y, z :: leq(x, y) && leq(y, z) ==> leq(x, z))
    && (forall x, y :: leq(x, y) || leq(y, x))
  }

  ghost predicate Antisymmetric<T(!new)>(leq: (T, T) -> bool) {
    forall x, y :: leq(x, y) && leq(y, x) ==> x == y
  }

  /** The order of Python strings, as a value. */
  function StrOrder(): (string, string) -> bool {
    (a: string, b: string) => StrLeq(a, b)
  }

  lemma StrOrderIsTotalOrder()
    ensures TotalPreorder(StrOrder()) && Antisymmetric(StrOrder())
  {
    forall x: string, y: string, z: string | StrLeq(x, y) && StrLeq(y, z) ensures StrLeq(x, z) {
      StrLeqTransitive(x, y, z);
    }
    forall x: string, y: string ensures StrLeq(x, y) || StrLeq(y, x) {
      StrLeqTotal(x, y);
    }
    forall x: string, y: string | StrLeq(x, y) && StrLeq(y, x) ensures x == y {
      StrLeqAntisymmetric(x, y);
    }
  }

  predicate SortedBy<T>(s: seq<T>, leq: (T, T) -> bool) {
    forall i, j :: 0 <= i < j < |s| ==> leq(s[i], s[j])
  }

  predicate NoDup<T(==)>(s: seq<T>) {
    forall i, j :: 0 <= i < j < |s| ==> s[i] != s[j]
  }

  function Elems<T>(s: seq<T>): set<T> {
    set x | x in s
  }

  /** Inserts `x` before the first element it is `leq` to. */
  function Insert<T(!new)>(x: T, s: seq<T>, leq: (T, T) -> bool): (r: seq<T>)
    requires TotalPreorder(leq) && SortedBy(s, leq)
    ensures SortedBy(r, leq)
    ensures multiset(r) == multiset(s) + multiset{x}
  {
    if s == [] || leq(x, s[0]) then
      [x] + s
    else
      var t := Insert(x, s[1..], leq);
      assert s == [s[0]] + s[1..];
      BoundStaysBelow(s[0], x, s[1..], t, leq);
      [s[0]] + t
  }

  /** An element below `x` and below all of `rest` is below every element of a permutation of both. */
  lemma BoundStaysBelow<T>(y: T, x: T, rest: seq<T>, t: seq<T>, leq: (T, T) -> bool)
    requires leq(y, x) && forall k :: 0 <= k < |rest| ==> leq(y, rest[k])
    requires multiset(t) == multiset(rest) + multiset{x}
    ensures forall k :: 0 <= k < |t| ==> leq(y, t[k])
  {
    forall k | 0 <= k < |t| ensures leq(y, t[k]) {
      assert t[k] in multiset(t);
      assert t[k] == x || t[k] in multiset(rest);
    }
  }

  /** Python's `sorted(s, key=...)`: an ordered permutation of `s`. */
  function SortBy<T(!new)>(s: seq<T>, leq: (T, T) -> bool): (r: seq<T>)
    requires TotalPreorder(leq)
    ensures SortedBy(r, leq)
    ensures multiset(r) == multiset(s)
  {
    if s == [] then []
    else
      assert s == [s[0]] + s[1..];
      Insert(s[0], SortBy(s[1..], leq), leq)
  }

  /** Under a total order there is only one ordered arrangement of a multiset. */
  lemma {:induction false} SortedUnique<T(!new)>(a: seq<T>, b: seq<T>, leq: (T, T) -> bool)
    requires TotalPreorder(leq) && Antisymmetric(leq)
    requires SortedBy(a, leq) && SortedBy(b, leq)
    requires multiset(a) == multiset(b)
    ensures a == b
  {
    if a != [] {
      assert b != [] by { assert a[0] in multiset(b); }
      SameHead(a, b, leq);
      DropHead(a);
      DropHead(b);
      SortedUnique(a[1..], b[1..], leq);
      assert a == [a[0]] + a[1..] && b == [b[0]] + b[1..];
    } else {
      assert |multiset(b)| == 0;
    }
  }

  /** Ordered arrangements of one multiset start with the same element. */
  lemma SameHead<T(!new)>(a: seq<T>, b: seq<T>, leq: (T, T) -> bool)
    requires TotalPreorder(leq) && Antisymmetric(leq)
    requires SortedBy(a, leq) && SortedBy(b, leq)
    requires a != [] && b != [] && multiset(a) == multiset(b)
    ensures a[0] == b[0]
  {
    assert a[0] in multiset(b) && b[0] in multiset(a);
    var i :| 0 <= i < |b| && b[i] == a[0];
    var j :| 0 <= j < |a| && a[j] == b[0];
    assert leq(a[0], b[0]) by { assert leq(a[0], a[j]); }
    assert leq(b[0], a[0]) by { assert leq(b[0], b[i]); }
  }

  /** Dropping the first element removes one occurrence of it from the multiset. */
  lemma DropHead<T>(a: seq<T>)
    requires a != []
    ensures multiset(a[1..]) == multiset(a) - multiset{a[0]}
  {
    assert a == [a[0]] + a[1..];
  }

  /** Two sorted sequences are equal exactly when they are permutations of each other. */
  lemma SortEqualIffPermutation<T(!new)>(a: seq<T>, b: seq<T>, leq: (T, T) -> bool)
    requires TotalPreorder(leq) && Antisymmetric(leq)
    ensures SortBy(a, leq) == SortBy(b, leq) <==> multiset(a) == multiset(b)
  {
    if multiset(a) == multiset(b) {
      SortedUnique(SortBy(a, leq), SortBy(b, leq), leq);
    }
  }

  /** Duplicate-free ordered sequences with the same elements are equal. */
  lemma {:induction false} SortedSetUnique<T(!new)>(a: seq<T>, b: seq<T>, leq: (T, T) -> bool)
    requires TotalPreorder(leq) && Antisymmetric(leq)
    requires SortedBy(a, leq) && SortedBy(b, leq) && NoDup(a) && NoDup(b)
    requires Elems(a) == Elems(b)
    ensures a == b
  {
    assert b != [] ==> b[0] in Elems(b);
    if a != [] {
      assert a[0] in Elems(b);
      assert b[0] in Elems(a);
      var i :| 0 <= i < |b| && b[i] == a[0];
      var j :| 0 <= j < |a| && a[j] == b[0];
      assert leq(a[0], b[0]) by { assert leq(a[0], a[j]); }
      assert leq(b[0], a[0]) by { assert leq(b[0], b[i]); }
      assert a[0] == b[0];
      assert Elems(a[1..]) == Elems(a) - {a[0]} by {
        assert a == [a[0]] + a[1..];
        assert a[0] !in a[1..];
      }
      assert Elems(b[1..]) == Elems(b) - {b[0]} by {
        assert b == [b[0]] + b[1..];
        assert b[0] !in b[1..];
      }
      SortedSetUnique(a[1..], b[1..], leq);
      assert a == [a[0]] + a[1..] && b == [b[0]] + b[1..];
    }
  }

  /** A duplicate-free sequence holds every element once. */
  lemma {:induction false} NoDupCounts<T>(s: seq<T>)
    ensures NoDup(s) <==> forall x :: multiset(s)[x] <= 1
  {
    if s != [] {
      var h, t := s[0], s[1..];
      NoDupCounts(t);
      assert s == [h] + t;
      assert multiset(s) == multiset{h} + multiset(t);
      assert NoDup(s) <==> h !in t && NoDup(t) by {
        assert forall j :: 0 < j < |s| ==> s[j] == t[j - 1];
      }
      assert (forall x :: multiset(s)[x] <= 1) <==> multiset(t)[h] == 0 && (forall x :: multiset(t)[x] <= 1) by {
        assert forall x :: multiset(s)[x] == (if x == h then 1 else 0) + multiset(t)[x];
      }
    }
  }

  lemma NoDupPermutation<T>(a: seq<T>, b: seq<T>)
    requires NoDup(a) && multiset(a) == multiset(b)
    ensures NoDup(b) && Elems(a) == Elems(b)
  {
    NoDupCounts(a);
    NoDupCounts(b);
    assert forall x :: x in a <==> x in multiset(a);
  }

  /** Order-preserving removal of repeats: `set(s)` as a sequence. */
  function Dedup<T(==)>(s: seq<T>): (r: seq<T>)
    ensures NoDup(r)
    ensures Elems(r) == Elems(s)
  {
    if s == [] then []
    else
      var init, last := s[..|s| - 1], s[|s| - 1];
      var r := Dedup(init);
      assert s == init + [last];
      assert Elems(s) == Elems(init) + {last};
      if last in r then r
      else
        assert Elems(r + [last]) == Elems(r) + {last};
        r + [last]
  }

  /** `sorted(set(s))` for strings: ordered, duplicate-free, same elements. */
  function SortedSet(s: seq<string>): (r: seq<string>)
    ensures SortedBy(r, StrOrder()) && NoDup(r) && Elems(r) == Elems(s)
  {
    StrOrderIsTotalOrder();
    var d := Dedup(s);
    var r := SortBy(d, StrOrder());
    NoDupPermutation(d, r);
    r
  }

  /** `sorted(set(a)) == sorted(set(b))` exactly when the two have the same elements. */
  lemma SortedSetEqualIff(a: seq<string>, b: seq<string>)
    ensures SortedSet(a) == SortedSet(b) <==> Elems(a) == Elems(b)
  {
    if Elems(a) == Elems(b) {
      StrOrderIsTotalOrder();
      SortedSetUnique(SortedSet(a), SortedSet(b), StrOrder());
    }
  }

  /** Inserting a new element into a duplicate-free ordered sequence keeps it duplicate-free. */
  lemma InsertFresh<T(!new)>(x: T, r: seq<T>, leq: (T, T) -> bool)
    requires TotalPreorder(leq) && SortedBy(r, leq) && NoDup(r) && x !in r
    ensures NoDup(Insert(x, r, leq)) && Elems(Insert(x, r, leq)) == Elems(r) + {x}
  {
    var r' := Insert(x, r, leq);
    NoDupCounts(r);
    NoDupCounts(r');
    assert forall y :: y in r' <==> y in multiset(r');
    assert forall y :: y in r <==> y in multiset(r);
  }

  /** Moving one element of `rest` into the ordered prefix keeps the split of `s`. */
  lemma MoveFresh<T(!new)>(x: T, r: seq<T>, rest: set<T>, s: set<T>, leq: (T, T) -> bool)
    requires TotalPreorder(leq) && SortedBy(r, leq) && NoDup(r)
    requires Elems(r) + rest == s && Elems(r) !! rest && x in rest
    ensures NoDup(Insert(x, r, leq))
    ensures Elems(Insert(x, r, leq)) + (rest - {x}) == s && Elems(Insert(x, r, leq)) !! (rest - {x})
  {
    InsertFresh(x, r, leq);
  }

  /** Python's `sorted(some_set)` for a set of strings, built by repeated insertion. */
  method SortedFromSet(s: set<string>) returns (r: seq<string>)
    ensures SortedBy(r, StrOrder()) && NoDup(r) && Elems(r) == s
  {
    StrOrderIsTotalOrder();
    r := [];
    var rest := s;
    while rest != {}
      invariant SortedBy(r, StrOrder()) && NoDup(r)
      invariant Elems(r) + rest == s && Elems(r) !! rest
      decreases |rest|
    {
      var x :| x in rest;
      MoveFresh(x, r, rest, s, StrOrder());
      r := Insert(x, r, StrOrder());
      rest := rest - {x};
    }
  }

  /** Some listing of a finite set, each element once. */
  ghost function Enumerate<T>(s: set<T>): (r: seq<T>)
    ensures NoDup(r) && Elems(r) == s
    decreases |s|
  {
    if s == {} then []
    else
      var x :| x in s;
      var rest := Enumerate(s - {x});
      assert Elems([x] + rest) == {x} + Elems(rest);
      [x] + rest
  }

  /** `sorted(s)` for a set of strings: the one ordered, duplicate-free listing of it. */
  ghost function SortedOf(s: set<string>): (r: seq<string>)
    ensures SortedBy(r, StrOrder()) && NoDup(r) && Elems(r) == s
  {
    SortedSet(Enumerate(s))
  }

  lemma SortedOfUnique(r: seq<string>, s: set<string>)
    requires SortedBy(r, StrOrder()) && NoDup(r) && Elems(r) == s
    ensures r == SortedOf(s)
  {
    StrOrderIsTotalOrder();
    SortedSetUnique(r, SortedOf(s), StrOrder());
  }
}
