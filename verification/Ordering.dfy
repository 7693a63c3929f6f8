/** The iteration order of std::set and std::map: ascending keys under a strict total order. */
module Ordering {

  ghost predicate StrictTotal<T(!new)>(less: (T, T) -> bool) {
    && (forall a :: !less(a, a))
    && (forall a, b, c :: less(a, b) && less(b, c) ==> less(a, c))
    && (forall a, b :: a != b ==> less(a, b) || less(b, a))
  }

  ghost predicate IsLeast<T(!new)>(x: T, s: set<T>, less: (T, T) -> bool) {
    x in s && forall y | y in s :: y == x || less(x, y)
  }

  lemma {:induction false} LeastExists<T(!new)>(s: set<T>, less: (T, T) -> bool)
    requires StrictTotal(less) && s != {}
    ensures exists x :: IsLeast(x, s, less)
    decreases |s|
  {
    var a :| a in s;
    if s == {a} {
      assert IsLeast(a, s, less);
    } else {
      LeastExists(s - {a}, less);
      var b :| IsLeast(b, s - {a}, less);
      if less(a, b) {
        forall y | y in s
          ensures y == a || less(a, y)
        {
          assert y == a || y in s - {a};
        }
        assert IsLeast(a, s, less);
      } else {
        assert IsLeast(b, s, less);
      }
    }
  }

  ghost function Least<T(!new)>(s: set<T>, less: (T, T) -> bool): (x: T)
    requires StrictTotal(less) && s != {}
    ensures IsLeast(x, s, less)
  {
    LeastExists(s, less);
    var x :| IsLeast(x, s, less);
    x
  }

  /** The elements of a set in the order a std::set visits them. */
  ghost function Sorted<T(!new)>(s: set<T>, less: (T, T) -> bool): (r: seq<T>)
    requires StrictTotal(less)
    ensures |r| == |s|
    ensures forall x :: x in r <==> x in s
    decreases |s|
  {
    if s == {} then [] else
      var x := Least(s, less);
      [x] + Sorted(s - {x}, less)
  }

  ghost predicate Ascending<T>(r: seq<T>, less: (T, T) -> bool) {
    forall i, j | 0 <= i < j < |r| :: less(r[i], r[j])
  }

  lemma {:induction false} SortedAscends<T(!new)>(s: set<T>, less: (T, T) -> bool)
    requires StrictTotal(less)
    ensures Ascending(Sorted(s, less), less)
    decreases |s|
  {
    if s == {} {
    } else {
      var x := Least(s, less);
      SortedAscends(s - {x}, less);
      var r := Sorted(s - {x}, less);
      forall i, j | 0 <= i < j < |r| + 1
        ensures less(([x] + r)[i], ([x] + r)[j])
      {
        assert r[j - 1] in r;
        if i > 0 {
          assert less(r[i - 1], r[j - 1]);
        }
      }
    }
  }

  lemma SomeElement<T(!new)>(r: seq<T>)
    requires r != []
    ensures exists x :: x in r
  {
    assert r[0] in r;
  }

  /** There is only one ascending arrangement of a set. */
  lemma {:induction false} AscendingUnique<T(!new)>(r: seq<T>, s: set<T>, less: (T, T) -> bool)
    requires StrictTotal(less) && Ascending(r, less)
    requires forall x :: x in r <==> x in s
    ensures r == Sorted(s, less)
    decreases |s|
  {
    hide StrictTotal, IsLeast, Ascending, Sorted;
    if s == {} {
      SortedNothing(less);
      if r != [] {
        SomeElement(r);
      }
    } else {
      var x := Least(s, less);
      LeastIsIn(s, less);
      FirstIsLeast(r, x, s, less);
      TailIsRest(r, s, less);
      TailAscends(r, less);
      AscendingUnique(r[1..], s - {x}, less);
      SortedFirst(s, less);
    }
  }

  lemma SortedNothing<T(!new)>(less: (T, T) -> bool)
    requires StrictTotal(less)
    ensures Sorted({}, less) == []
  {
  }

  lemma SortedFirst<T(!new)>(s: set<T>, less: (T, T) -> bool)
    requires StrictTotal(less) && s != {}
    ensures Sorted(s, less) == [Least(s, less)] + Sorted(s - {Least(s, less)}, less)
  {
    hide StrictTotal, IsLeast;
  }

  lemma LeastIsIn<T(!new)>(s: set<T>, less: (T, T) -> bool)
    requires StrictTotal(less) && s != {}
    ensures Least(s, less) in s
  {
    hide StrictTotal;
  }

  lemma TailAscends<T>(r: seq<T>, less: (T, T) -> bool)
    requires Ascending(r, less) && r != []
    ensures Ascending(r[1..], less)
  {
  }

  lemma FirstIsLeast<T(!new)>(r: seq<T>, x: T, s: set<T>, less: (T, T) -> bool)
    requires StrictTotal(less) && Ascending(r, less)
    requires forall x :: x in r <==> x in s
    requires IsLeast(x, s, less) && x in r
    ensures r[0] == x
  {
    var i :| 0 <= i < |r| && r[i] == x;
    assert r[0] in r;
    var first := r[0];
    assert first in s;
    assert i > 0 ==> less(first, x);
    assert first == x || less(x, first);
  }

  lemma TailIsRest<T(!new)>(r: seq<T>, s: set<T>, less: (T, T) -> bool)
    requires StrictTotal(less) && Ascending(r, less) && r != []
    requires forall x :: x in r <==> x in s
    ensures forall y :: y in r[1..] <==> y in s - {r[0]}
  {
  }

  /** std::less on std::string. */
  predicate StringLess(a: string, b: string) {
    if b == "" then false
    else if a == "" then true
    else if a[0] != b[0] then a[0] < b[0]
    else StringLess(a[1..], b[1..])
  }

  predicate NatLess(a: nat, b: nat) { a < b }

  lemma {:induction false} StringLessIrreflexive(a: string)
    ensures !StringLess(a, a)
  {
    if a != "" {
      StringLessIrreflexive(a[1..]);
    }
  }

  lemma {:induction false} StringLessTransitive(a: string, b: string, c: string)
    requires StringLess(a, b) && StringLess(b, c)
    ensures StringLess(a, c)
    decreases |a|
  {
    if a != "" && a[0] == b[0] == c[0] {
      StringLessTransitive(a[1..], b[1..], c[1..]);
    }
  }

  lemma {:induction false} StringLessTotal(a: string, b: string)
    requires a != b
    ensures StringLess(a, b) || StringLess(b, a)
  {
    if a != "" && b != "" && a[0] == b[0] {
      assert a == [a[0]] + a[1..] && b == [b[0]] + b[1..];
      StringLessTotal(a[1..], b[1..]);
    }
  }

  lemma StringLessStrictTotal()
    ensures StrictTotal(StringLess)
  {
    forall a: string
      ensures !StringLess(a, a)
    {
      StringLessIrreflexive(a);
    }
    forall a: string, b: string, c: string | StringLess(a, b) && StringLess(b, c)
      ensures StringLess(a, c)
    {
      StringLessTransitive(a, b, c);
    }
    forall a: string, b: string | a != b
      ensures StringLess(a, b) || StringLess(b, a)
    {
      StringLessTotal(a, b);
    }
  }

  /** The keys of a std::map<std::string, ...>, or the elements of a std::set<std::string>, in iteration order. */
  ghost function InKeyOrder(s: set<string>): (r: seq<string>)
    ensures |r| == |s|
    ensures forall x :: x in r <==> x in s
  {
    StringLessStrictTotal();
    Sorted(s, StringLess)
  }

  /** The elements of a std::set<uint> in iteration order. */
  ghost function InTypeOrder(s: set<nat>): (r: seq<nat>)
    ensures |r| == |s|
    ensures forall x :: x in r <==> x in s
  {
    Sorted(s, NatLess)
  }

  lemma TypeOrderAscends(s: set<nat>)
    ensures forall i, k | 0 <= i < k < |InTypeOrder(s)| :: InTypeOrder(s)[i] < InTypeOrder(s)[k]
  {
    SortedAscends(s, NatLess);
    hide Sorted;
    forall i, k | 0 <= i < k < |InTypeOrder(s)|
      ensures InTypeOrder(s)[i] < InTypeOrder(s)[k]
    {
      assert NatLess(InTypeOrder(s)[i], InTypeOrder(s)[k]);
    }
  }

  lemma KeyOrderAscends(s: set<string>)
    ensures Ascending(InKeyOrder(s), StringLess)
  {
    StringLessStrictTotal();
    SortedAscends(s, StringLess);
    hide StringLess, StrictTotal, Sorted, Ascending;
  }

  lemma KeyOrderDistinct(s: set<string>)
    ensures forall i, j | 0 <= i < j < |InKeyOrder(s)| :: InKeyOrder(s)[i] != InKeyOrder(s)[j]
  {
    KeyOrderAscends(s);
    var r := InKeyOrder(s);
    forall i, j | 0 <= i < j < |r|
      ensures r[i] != r[j]
    {
      assert StringLess(r[i], r[j]);
      StringLessIrreflexive(r[i]);
    }
  }

  lemma StringLessThrough(y: string, x: string, keys: set<string>)
    requires StringLess(y, x)
    ensures forall z | z in keys && StringLess(x, z) :: StringLess(y, z)
  {
    forall z | z in keys && StringLess(x, z)
      ensures StringLess(y, z)
    {
      StringLessTransitive(y, x, z);
    }
  }

  /** The first key of a nonempty map or set: what begin() points to. */
  method FirstKey(s: set<string>) returns (x: string)
    requires s != {}
    ensures x in s && x == InKeyOrder(s)[0]
  {
    hide StringLess, InKeyOrder;
    var rest := s;
    x :| x in s;
    rest := s - {x};
    while rest != {}
      invariant x in s && rest <= s && x !in rest
      invariant forall y | y in s - rest :: y == x || StringLess(x, y)
    {
      var y :| y in rest;
      rest := rest - {y};
      StringLessTotal(x, y);
      if StringLess(y, x) {
        StringLessThrough(y, x, s - rest);
        x := y;
      }
    }
    LeastIsFirst(x, s);
  }

  lemma LeastIsFirst(x: string, s: set<string>)
    requires x in s && forall y | y in s :: y == x || StringLess(x, y)
    ensures x == InKeyOrder(s)[0]
  {
    StringLessStrictTotal();
    hide StringLess;
    assert IsLeast(x, s, StringLess);
    assert IsLeast(Least(s, StringLess), s, StringLess);
  }

  method FirstType(s: set<nat>) returns (x: nat)
    requires s != {}
    ensures x in s && x == InTypeOrder(s)[0]
  {
    var rest := s;
    x :| x in s;
    rest := s - {x};
    while rest != {}
      invariant x in s && rest <= s && x !in rest
      invariant forall y | y in s - rest :: y == x || NatLess(x, y)
    {
      var y :| y in rest;
      rest := rest - {y};
      assert forall z | z in s - rest :: z == y || z == x || NatLess(x, z);
      if y < x {
        x := y;
      }
    }
    assert IsLeast(x, s, NatLess);
    assert IsLeast(Least(s, NatLess), s, NatLess);
  }
}
