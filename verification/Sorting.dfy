/** Sorting with a caller-supplied order. The library sorts of Go are represented by a stable
    insertion sort; where the order is strict and total on the elements, every sorting
    algorithm returns this same sequence (`AscendingIsUnique`). */
module Sorting {

  /** A strict total order on the elements of `s`. */
  ghost predicate StrictTotalOn<T(!new)>(before: (T, T) -> bool, s: set<T>) {
    && (forall a :: a in s ==> !before(a, a))
    && (forall a, b :: a in s && b in s && a != b ==> before(a, b) || before(b, a))
    && (forall a, b, c :: a in s && b in s && c in s && before(a, b) && before(b, c) ==> before(a, c))
  }

  ghost predicate Ascending<T>(before: (T, T) -> bool, s: seq<T>) {
    forall i, j :: 0 <= i < j < |s| ==> before(s[i], s[j])
  }

  function Elements<T>(s: seq<T>): set<T> {
    set x | x in s
  }

  ghost predicate Distinct<T>(s: seq<T>) {
    forall i, j :: 0 <= i < j < |s| ==> s[i] != s[j]
  }

  /** `x` goes behind every element it is not strictly before. */
  function Insert<T>(before: (T, T) -> bool, s: seq<T>, x: T): (r: seq<T>)
    ensures |r| == |s| + 1
    ensures multiset(r) == multiset(s) + multiset{x}
  {
    if s == [] || !before(x, s[|s| - 1]) then s + [x]
    else
      assert s == s[..|s| - 1] + [s[|s| - 1]];
      Insert(before, s[..|s| - 1], x) + [s[|s| - 1]]
  }

  function Sort<T>(before: (T, T) -> bool, s: seq<T>): (r: seq<T>)
    ensures |r| == |s|
    ensures multiset(r) == multiset(s)
  {
    if s == [] then []
    else
      assert s == s[..|s| - 1] + [s[|s| - 1]];
      Insert(before, Sort(before, s[..|s| - 1]), s[|s| - 1])
  }

  lemma SameElements<T>(a: seq<T>, b: seq<T>)
    requires multiset(a) == multiset(b)
    ensures Elements(a) == Elements(b)
  {
    assert forall x :: x in a <==> x in multiset(a);
    assert forall x :: x in b <==> x in multiset(b);
  }

  lemma {:induction false} InsertAscends<T(!new)>(before: (T, T) -> bool, s: seq<T>, x: T)
    requires StrictTotalOn(before, Elements(s) + {x}) && Ascending(before, s) && x !in s
    ensures Ascending(before, Insert(before, s, x))
    decreases |s|
  {
    if s != [] {
      var init, last := s[..|s| - 1], s[|s| - 1];
      if before(x, last) {
        assert Elements(init) + {x} <= Elements(s) + {x};
        InsertAscends(before, init, x);
        var r := Insert(before, init, x);
        InsertMembers(before, init, x);
        forall i | 0 <= i < |r| ensures before(r[i], last) {
          assert r[i] in init || r[i] == x;
        }
      } else {
        assert last in Elements(s) && before(last, x);
        forall i | 0 <= i < |s| ensures before(s[i], x) {
          assert s[i] in Elements(s);
        }
      }
    }
  }

  lemma InsertMembers<T(!new)>(before: (T, T) -> bool, s: seq<T>, x: T)
    ensures forall y :: y in Insert(before, s, x) <==> y in s || y == x
  {
    var r := Insert(before, s, x);
    assert forall y :: y in r <==> y in multiset(r);
    assert forall y :: y in s <==> y in multiset(s);
  }

  lemma {:induction false} SortAscends<T(!new)>(before: (T, T) -> bool, s: seq<T>)
    requires StrictTotalOn(before, Elements(s)) && Distinct(s)
    ensures Ascending(before, Sort(before, s)) && Elements(Sort(before, s)) == Elements(s)
    decreases |s|
  {
    SameElements(Sort(before, s), s);
    if s != [] {
      var init, last := s[..|s| - 1], s[|s| - 1];
      assert Elements(init) + {last} == Elements(s);
      SortAscends(before, init);
      assert last !in Elements(init);
      InsertAscends(before, Sort(before, init), last);
    }
  }

  // ----- orders with ties -----

  /** Later elements are not before earlier ones. */
  ghost predicate Ordered<T>(before: (T, T) -> bool, s: seq<T>) {
    forall i, j :: 0 <= i < j < |s| ==> !before(s[j], s[i])
  }

  /** A strict order in which ties are equivalences. */
  ghost predicate WeakOrder<T(!new)>(before: (T, T) -> bool) {
    && (forall a, b :: before(a, b) ==> !before(b, a))
    && (forall a, b, c :: !before(b, a) && !before(c, b) ==> !before(c, a))
  }

  lemma {:induction false} InsertOrders<T(!new)>(before: (T, T) -> bool, s: seq<T>, x: T)
    requires WeakOrder(before) && Ordered(before, s)
    ensures Ordered(before, Insert(before, s, x))
    decreases |s|
  {
    if s != [] {
      var init, last := s[..|s| - 1], s[|s| - 1];
      if before(x, last) {
        InsertOrders(before, init, x);
        var r := Insert(before, init, x);
        InsertMembers(before, init, x);
        forall i | 0 <= i < |r| ensures !before(last, r[i]) {
          assert r[i] in init || r[i] == x;
        }
      } else {
        forall i | 0 <= i < |s| ensures !before(x, s[i]) {
          assert i < |s| - 1 ==> !before(last, s[i]);
        }
      }
    }
  }

  lemma {:induction false} SortOrders<T(!new)>(before: (T, T) -> bool, s: seq<T>)
    requires WeakOrder(before)
    ensures Ordered(before, Sort(before, s))
    decreases |s|
  {
    if s != [] {
      SortOrders(before, s[..|s| - 1]);
      InsertOrders(before, Sort(before, s[..|s| - 1]), s[|s| - 1]);
    }
  }

  /** An ascending sequence is determined by its elements. */
  lemma {:induction false} AscendingIsUnique<T(!new)>(before: (T, T) -> bool, a: seq<T>, b: seq<T>)
    requires Elements(a) == Elements(b) && StrictTotalOn(before, Elements(a))
    requires Ascending(before, a) && Ascending(before, b)
    ensures a == b
    decreases |a|
  {
    assert a != [] ==> a[0] in Elements(a);
    assert b != [] ==> b[0] in Elements(b);
    if a != [] {
      HeadsAgree(before, a, b);
      TailElements(before, a);
      TailElements(before, b);
      AscendingIsUnique(before, a[1..], b[1..]);
      assert a == [a[0]] + a[1..] && b == [b[0]] + b[1..];
    }
  }

  lemma HeadsAgree<T(!new)>(before: (T, T) -> bool, a: seq<T>, b: seq<T>)
    requires Elements(a) == Elements(b) && StrictTotalOn(before, Elements(a))
    requires Ascending(before, a) && Ascending(before, b) && a != [] && b != []
    ensures a[0] == b[0]
  {
    var x, y := a[0], b[0];
    assert x in Elements(b) && y in Elements(a);
    var i :| 0 <= i < |b| && b[i] == x;
    var j :| 0 <= j < |a| && a[j] == y;
    assert 0 < i ==> before(y, x);
    assert 0 < j ==> before(x, y);
  }

  lemma TailElements<T(!new)>(before: (T, T) -> bool, a: seq<T>)
    requires a != [] && Ascending(before, a) && StrictTotalOn(before, Elements(a))
    ensures Elements(a[1..]) == Elements(a) - {a[0]}
    ensures Ascending(before, a[1..]) && StrictTotalOn(before, Elements(a[1..]))
  {
    assert a[0] in Elements(a);
    forall i | 0 < i < |a| ensures a[i] != a[0] {
      assert before(a[0], a[i]);
    }
    assert a == [a[0]] + a[1..];
  }

  /** Dropping the head and sorting again gives the tail. */
  lemma TailIsUnique<T(!new)>(before: (T, T) -> bool, a: seq<T>, b: seq<T>)
    requires a != [] && Ascending(before, a) && Ascending(before, b) && StrictTotalOn(before, Elements(a))
    requires forall x :: x in b <==> x in a && x != a[0]
    ensures b == a[1..]
  {
    TailElements(before, a);
    assert Elements(b) == Elements(a) - {a[0]};
    AscendingIsUnique(before, b, a[1..]);
  }

  lemma AscendingIsDistinct<T(!new)>(before: (T, T) -> bool, a: seq<T>)
    requires Ascending(before, a) && StrictTotalOn(before, Elements(a))
    ensures Distinct(a)
  {
    forall i, j | 0 <= i < j < |a| ensures a[i] != a[j] {
      assert a[i] in Elements(a) && before(a[i], a[j]);
    }
  }

  /** The elements of a finite set in ascending order. */
  ghost function Ascend<T(!new)>(before: (T, T) -> bool, s: set<T>): (r: seq<T>)
    requires StrictTotalOn(before, s)
    ensures Ascending(before, r) && Elements(r) == s
  {
    SomeAscending(before, s);
    var r :| Ascending(before, r) && Elements(r) == s;
    r
  }

  lemma OrderOnSubset<T(!new)>(before: (T, T) -> bool, s: set<T>, t: set<T>)
    requires StrictTotalOn(before, s) && t <= s
    ensures StrictTotalOn(before, t)
  {
  }

  lemma InsertNew<T(!new)>(before: (T, T) -> bool, s: set<T>, r: seq<T>, x: T)
    requires StrictTotalOn(before, s) && x in s && Ascending(before, r) && Elements(r) == s - {x}
    ensures Ascending(before, Insert(before, r, x)) && Elements(Insert(before, r, x)) == s
  {
    assert Elements(r) + {x} == s && x !in Elements(r);
    InsertAscends(before, r, x);
    InsertMembers(before, r, x);
  }

  lemma {:induction false} SomeAscending<T(!new)>(before: (T, T) -> bool, s: set<T>)
    requires StrictTotalOn(before, s)
    ensures exists r :: Ascending(before, r) && Elements(r) == s
    decreases |s|
  {
    if s == {} {
      assert Ascending(before, []) && Elements<T>([]) == s;
    } else {
      hide StrictTotalOn, Ascending, Elements, Insert;
      var x :| x in s;
      OrderOnSubset(before, s, s - {x});
      SomeAscending(before, s - {x});
      var r :| Ascending(before, r) && Elements(r) == s - {x};
      InsertNew(before, s, r, x);
    }
  }

  /** Go's "range over a map's keys, then sort": whatever the iteration order, the result is
      the ascending list of the keys. */
  method SortedKeys<T(!new,==)>(before: (T, T) -> bool, keys: set<T>) returns (r: seq<T>)
    requires StrictTotalOn(before, keys)
    ensures r == Ascend(before, keys)
  {
    var all: seq<T> := [];
    var rest := keys;
    while rest != {}
      invariant Distinct(all) && rest <= keys && Elements(all) == keys - rest
      decreases |rest|
    {
      var x :| x in rest;
      assert x !in Elements(all) && Elements(all + [x]) == Elements(all) + {x};
      all := all + [x];
      rest := rest - {x};
    }
    SortAscends(before, all);
    r := Sort(before, all);
    AscendingIsUnique(before, r, Ascend(before, keys));
  }

  // ----- the orders in use -----

  predicate IntBefore(a: int, b: int) {
    a < b
  }

  lemma IntsAreOrdered(s: set<int>)
    ensures StrictTotalOn(IntBefore, s)
  {
  }

  /** Go's string order. */
  predicate StringBefore(a: string, b: string) {
    if b == "" then false
    else if a == "" then true
    else if a[0] != b[0] then a[0] < b[0]
    else StringBefore(a[1..], b[1..])
  }

  /** Go's order: the first difference decides, and a prefix comes first. */
  lemma {:induction false} FirstDifferenceDecides(common: string, x: char, y: char, s: string, t: string)
    requires x < y
    ensures StringBefore(common + [x] + s, common + [y] + t) && StringBefore(common, common + [y] + t)
    decreases |common|
  {
    var a, b := common + [x] + s, common + [y] + t;
    if common != "" {
      FirstDifferenceDecides(common[1..], x, y, s, t);
      assert a[1..] == common[1..] + [x] + s && b[1..] == common[1..] + [y] + t;
    }
  }

  lemma {:induction false} StringIrreflexive(a: string)
    ensures !StringBefore(a, a)
  {
    if a != "" {
      StringIrreflexive(a[1..]);
    }
  }

  lemma {:induction false} StringTotal(a: string, b: string)
    ensures a != b ==> StringBefore(a, b) || StringBefore(b, a)
  {
    if a != "" && b != "" {
      StringTotal(a[1..], b[1..]);
      assert a == [a[0]] + a[1..] && b == [b[0]] + b[1..];
    }
  }

  lemma {:induction false} StringTransitive(a: string, b: string, c: string)
    requires StringBefore(a, b) && StringBefore(b, c)
    ensures StringBefore(a, c)
  {
    if a != "" && a[0] == b[0] && b[0] == c[0] {
      StringTransitive(a[1..], b[1..], c[1..]);
    }
  }
}
